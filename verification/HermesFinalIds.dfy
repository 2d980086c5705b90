/**
 Which id every call and every response ends up with, and how many failures are counted, in every conversation.
 Nothing here is left to automatic induction, which does not fit statements about positions in turns.
 */
module HermesFinalIds {
  import opened Wrappers
  import opened HermesModel
  import opened HermesMachine
  import opened HermesLinking
  import opened HermesSettling

  // ----- who answers to whom, read off the collected turns -----

  /** The agent turn that turn n's responses are linked to: the turn itself or the last agent before it. */
  function InCharge(cs: seq<Collected>, n: nat): (a: Option<nat>)
    requires n < |cs|
    ensures a.Some? ==> a.value <= n && cs[a.value].step.role == Agent
    ensures forall k :: 0 <= k <= n && cs[k].step.role == Agent ==> a.Some? && k <= a.value
  {
    if cs[n].step.role == Agent then Some(n) else if n == 0 then None else InCharge(cs, n - 1)
  }

  /** The call position of turn n's first response, when agent turn a is in charge of it. */
  function Base(cs: seq<Collected>, lead: seq<Observation>, a: nat, n: nat): nat
    requires a < |cs|
  {
    |Before(lead, a)| + if n == a then 0 else |cs[a].responses|
  }

  /** The id that turn n offers to call i of agent turn a. */
  function Offer(cs: seq<Collected>, lead: seq<Observation>, a: nat, n: nat, i: nat): Option<string>
    requires a < |cs| && n < |cs|
  {
    var base := Base(cs, lead, a, n);
    if InCharge(cs, n) == Some(a) && base <= i < base + |cs[n].responses|
       && cs[n].responses[i - base].sourceCallId != UNKNOWN
    then Some(cs[n].responses[i - base].sourceCallId)
    else None
  }

  /** The id of call i of agent turn a after the first n turns: the last one offered, or the call's own. */
  function IdAfter(cs: seq<Collected>, lead: seq<Observation>, a: nat, i: nat, n: nat): string
    requires a < |cs| && n <= |cs| && i < |cs[a].step.toolCalls|
  {
    if n <= a then cs[a].step.toolCalls[i].id else
      match Offer(cs, lead, a, n - 1, i)
      case Some(id) => id
      case None => IdAfter(cs, lead, a, i, n - 1)
  }

  /** Response j of turn n after linking: without an id it takes that of the call at its position. */
  function Identified(cs: seq<Collected>, lead: seq<Observation>, n: nat, j: nat): Observation
    requires n < |cs| && j < |cs[n].responses|
  {
    var o, charge := cs[n].responses[j], InCharge(cs, n);
    if charge.None? || o.sourceCallId != UNKNOWN then o else
      var a := charge.value;
      var i := Base(cs, lead, a, n) + j;
      if i < |cs[a].step.toolCalls| then o.(sourceCallId := IdAfter(cs, lead, a, i, n)) else o
  }

  /** The failures up to turn n: the responses that stand behind the calls of the agent in charge. */
  function FailuresAfter(cs: seq<Collected>, lead: seq<Observation>, n: nat): nat
    requires n <= |cs|
  {
    if n == 0 then 0 else
      var charge := InCharge(cs, n - 1);
      FailuresAfter(cs, lead, n - 1)
      + if charge.None? then 0
        else Unmatched(cs[charge.value].step.toolCalls, cs[n - 1].responses, Base(cs, lead, charge.value, n - 1))
  }

  // ----- settling gives exactly these -----

  /** What the settled turns look like, seen from the collected ones. */
  ghost predicate Describes(cs: seq<Collected>, lead: seq<Observation>, n: nat, settled: Settled)
    requires n <= |cs|
  {
    && |settled.steps| == n
    && (forall k :: 0 <= k < n ==> StepDescribed(cs, lead, n, k, settled.steps[k]))
    && settled.failures == FailuresAfter(cs, lead, n)
  }

  ghost predicate StepDescribed(cs: seq<Collected>, lead: seq<Observation>, n: nat, k: nat, step: Step)
    requires k < n <= |cs|
  {
    && step.role == cs[k].step.role
    && CallsDescribed(cs, lead, n, k, step.toolCalls)
    && ObservationsDescribed(cs, lead, k, step.observations)
  }

  ghost predicate CallsDescribed(cs: seq<Collected>, lead: seq<Observation>, n: nat, k: nat, calls: seq<ToolCall>)
    requires k < n <= |cs|
  {
    && |calls| == |cs[k].step.toolCalls|
    && forall i :: 0 <= i < |calls| ==>
         calls[i] == cs[k].step.toolCalls[i].(id := IdAfter(cs, lead, k, i, n))
  }

  ghost predicate ObservationsDescribed(cs: seq<Collected>, lead: seq<Observation>, k: nat, os: seq<Observation>)
    requires k < |cs|
  {
    var before := Before(lead, k);
    && |os| == |before| + |cs[k].responses| && os[..|before|] == before
    && forall j :: 0 <= j < |cs[k].responses| ==> os[|before| + j] == Identified(cs, lead, k, j)
  }

  /** The agent in charge, seen from the settled turns before turn n. */
  lemma {:induction false} ChargeOf(cs: seq<Collected>, n: nat, earlier: seq<Step>)
    requires n < |cs| && |earlier| == n && forall k :: 0 <= k < n ==> earlier[k].role == cs[k].step.role
    ensures InCharge(cs, n) == if cs[n].step.role == Agent then Some(n) else LastAgent(earlier)
  {
    var a, b := InCharge(cs, n), LastAgent(earlier);
    if cs[n].step.role != Agent && a.Some? && b.Some? {
      assert !(a.value < b.value) && !(b.value < a.value);
    }
  }

  lemma {:induction false} OwnCalls(cs: seq<Collected>, lead: seq<Observation>, n: nat)
    requires n < |cs| && InCharge(cs, n) == Some(n)
    ensures CallsDescribed(cs, lead, n + 1, n,
                           LinkedCalls(cs[n].step.toolCalls, cs[n].responses, |Before(lead, n)|))
  {
    var calls := cs[n].step.toolCalls;
    var linked := LinkedCalls(calls, cs[n].responses, |Before(lead, n)|);
    forall i | 0 <= i < |calls| ensures linked[i] == calls[i].(id := IdAfter(cs, lead, n, i, n + 1)) {
      assert IdAfter(cs, lead, n, i, n) == calls[i].id;
    }
  }

  lemma {:induction false} OwnObservations(cs: seq<Collected>, lead: seq<Observation>, n: nat)
    requires n < |cs| && InCharge(cs, n) == Some(n)
    ensures ObservationsDescribed(cs, lead, n, AgentSettled(cs[n], Before(lead, n)).observations)
  {
    var before := Before(lead, n);
    var linked := LinkedResponses(cs[n].step.toolCalls, cs[n].responses, |before|);
    forall j | 0 <= j < |cs[n].responses| ensures (before + linked)[|before| + j] == Identified(cs, lead, n, j) {
      assert (before + linked)[|before| + j] == linked[j];
    }
  }

  /** A turn changes the ids of the calls of the agent in charge. */
  lemma {:induction false} LateCalls(cs: seq<Collected>, lead: seq<Observation>, a: nat, n: nat, calls: seq<ToolCall>)
    requires a < n < |cs| && InCharge(cs, n) == Some(a) && CallsDescribed(cs, lead, n, a, calls)
    ensures CallsDescribed(cs, lead, n + 1, a, LinkedCalls(calls, cs[n].responses, Base(cs, lead, a, n)))
  {
    var linked := LinkedCalls(calls, cs[n].responses, Base(cs, lead, a, n));
    forall i | 0 <= i < |linked| ensures linked[i] == cs[a].step.toolCalls[i].(id := IdAfter(cs, lead, a, i, n + 1)) {
      assert calls[i] == cs[a].step.toolCalls[i].(id := IdAfter(cs, lead, a, i, n));
    }
  }

  lemma {:induction false} LateObservations(cs: seq<Collected>, lead: seq<Observation>, a: nat, n: nat,
                                            calls: seq<ToolCall>)
    requires a < n < |cs| && InCharge(cs, n) == Some(a) && CallsDescribed(cs, lead, n, a, calls)
    ensures ObservationsDescribed(cs, lead, n, LinkedResponses(calls, cs[n].responses, Base(cs, lead, a, n)))
  {
  }

  /** It leaves those of every other agent alone. */
  lemma {:induction false} OtherCalls(cs: seq<Collected>, lead: seq<Observation>, k: nat, n: nat, calls: seq<ToolCall>)
    requires k < n < |cs| && InCharge(cs, n) != Some(k) && CallsDescribed(cs, lead, n, k, calls)
    ensures CallsDescribed(cs, lead, n + 1, k, calls)
  {
  }

  /** A user turn's calls: it has none. */
  lemma {:induction false} UserCalls(cs: seq<Collected>, lead: seq<Observation>, n: nat)
    requires n < |cs| && cs[n].step.toolCalls == []
    ensures CallsDescribed(cs, lead, n + 1, n, [])
  {
  }

  lemma {:induction false} StrayObservations(cs: seq<Collected>, lead: seq<Observation>, n: nat)
    requires n < |cs| && InCharge(cs, n).None?
    ensures ObservationsDescribed(cs, lead, n, Before(lead, n) + cs[n].responses)
  {
  }

  ghost predicate UsersCallNothing(cs: seq<Collected>) {
    forall k :: 0 <= k < |cs| && cs[k].step.role == User ==> cs[k].step.toolCalls == []
  }

  lemma {:induction false} DescribedElsewhere(cs: seq<Collected>, lead: seq<Observation>, n: nat, earlier: Settled,
                                              k: nat)
    requires k < n < |cs| && Describes(cs, lead, n, earlier) && InCharge(cs, n) != Some(k)
    ensures StepDescribed(cs, lead, n + 1, k, earlier.steps[k])
  {
    assert StepDescribed(cs, lead, n, k, earlier.steps[k]);
    OtherCalls(cs, lead, k, n, earlier.steps[k].toolCalls);
  }

  lemma {:induction false} AgentTurnDescribed(cs: seq<Collected>, lead: seq<Observation>, n: nat, earlier: Settled)
    requires n < |cs| && Describes(cs, lead, n, earlier) && cs[n].step.role == Agent && InCharge(cs, n) == Some(n)
    ensures Describes(cs, lead, n + 1, SettleTurn(earlier, cs[n], Before(lead, n)))
  {
    OwnCalls(cs, lead, n);
    OwnObservations(cs, lead, n);
    var later := SettleTurn(earlier, cs[n], Before(lead, n));
    forall k | 0 <= k < n + 1 ensures StepDescribed(cs, lead, n + 1, k, later.steps[k]) {
      if k < n {
        DescribedElsewhere(cs, lead, n, earlier, k);
      }
    }
  }

  lemma {:induction false} UserTurnDescribed(cs: seq<Collected>, lead: seq<Observation>, n: nat, earlier: Settled,
                                             a: nat)
    requires n < |cs| && Describes(cs, lead, n, earlier)
    requires cs[n].step.role == User && cs[n].step.toolCalls == []
    requires a < n && InCharge(cs, n) == Some(a) == LastAgent(earlier.steps)
    ensures Describes(cs, lead, n + 1, UserSettled(earlier, a, cs[n]))
  {
    var agent, later := earlier.steps[a], UserSettled(earlier, a, cs[n]);
    assert StepDescribed(cs, lead, n, a, agent);
    assert |agent.observations| == Base(cs, lead, a, n);
    LateCalls(cs, lead, a, n, agent.toolCalls);
    LateObservations(cs, lead, a, n, agent.toolCalls);
    UserCalls(cs, lead, n);
    forall k | 0 <= k < n + 1 ensures StepDescribed(cs, lead, n + 1, k, later.steps[k]) {
      if k < n && k != a {
        DescribedElsewhere(cs, lead, n, earlier, k);
      }
    }
  }

  lemma {:induction false} StrayTurnDescribed(cs: seq<Collected>, lead: seq<Observation>, n: nat, earlier: Settled)
    requires n < |cs| && Describes(cs, lead, n, earlier)
    requires cs[n].step.role == User && cs[n].step.toolCalls == []
    requires InCharge(cs, n) == None == LastAgent(earlier.steps)
    ensures Describes(cs, lead, n + 1, SettleTurn(earlier, cs[n], Before(lead, n)))
  {
    StrayObservations(cs, lead, n);
    UserCalls(cs, lead, n);
    var later := SettleTurn(earlier, cs[n], Before(lead, n));
    forall k | 0 <= k < n + 1 ensures StepDescribed(cs, lead, n + 1, k, later.steps[k]) {
      if k < n {
        DescribedElsewhere(cs, lead, n, earlier, k);
      }
    }
  }

  lemma {:induction false} TurnDescribed(cs: seq<Collected>, lead: seq<Observation>, n: nat, earlier: Settled)
    requires n < |cs| && UsersCallNothing(cs) && Describes(cs, lead, n, earlier)
    ensures Describes(cs, lead, n + 1, SettleTurn(earlier, cs[n], Before(lead, n)))
  {
    forall k | 0 <= k < n ensures earlier.steps[k].role == cs[k].step.role {
      assert StepDescribed(cs, lead, n, k, earlier.steps[k]);
    }
    ChargeOf(cs, n, earlier.steps);
    if cs[n].step.role == Agent {
      AgentTurnDescribed(cs, lead, n, earlier);
    } else if LastAgent(earlier.steps).Some? {
      UserTurnDescribed(cs, lead, n, earlier, LastAgent(earlier.steps).value);
    } else {
      StrayTurnDescribed(cs, lead, n, earlier);
    }
  }

  lemma {:induction false} SettleDescribed(cs: seq<Collected>, lead: seq<Observation>, n: nat)
    requires n <= |cs| && UsersCallNothing(cs)
    ensures Describes(cs, lead, n, Settle(cs[..n], lead))
  {
    if n == 0 {
    } else {
      var m := n - 1;
      SettleDescribed(cs, lead, m);
      assert cs[..n][..m] == cs[..m];
      TurnDescribed(cs, lead, m, Settle(cs[..m], lead));
    }
  }

  // ----- every conversation -----

  lemma {:induction false} CollectedUsersCallNothing(events: seq<Event>)
    ensures UsersCallNothing(Collect(events))
  {
    if events == [] {
    } else {
      CollectedUsersCallNothing(events[..|events| - 1]);
    }
  }

  lemma {:induction false} FinishDescribed(events: seq<Event>)
    ensures var cs, lead := Collect(events), Leading(events);
            Describes(cs, lead, |cs|, Settled(Finish(events).steps, Finish(events).failures))
  {
    var cs, lead := Collect(events), Leading(events);
    FinishSettles(events);
    CollectedUsersCallNothing(events);
    SettleDescribed(cs, lead, |cs|);
    assert cs[..|cs|] == cs;
  }

  /**
   In every conversation a call ends up with the last id offered by a response at its position, among the agent's own
   responses and those of each user turn up to the next agent; without an offer it keeps its own id.
   */
  lemma {:induction false} FinalCallId(events: seq<Event>, a: nat, i: nat)
    requires a < |Collect(events)| && i < |Collect(events)[a].step.toolCalls|
    ensures var cs, steps := Collect(events), Finish(events).steps;
            && a < |steps| && |steps[a].toolCalls| == |cs[a].step.toolCalls|
            && steps[a].toolCalls[i] == cs[a].step.toolCalls[i].(id := IdAfter(cs, Leading(events), a, i, |cs|))
  {
    FinishDescribed(events);
    assert StepDescribed(Collect(events), Leading(events), |Collect(events)|, a, Finish(events).steps[a]);
  }

  /**
   In every conversation the k-th response of turn n keeps its own id, or takes the id that the call at its position
   has when turn n begins; without an agent in charge, or behind its last call, it stays "unknown".
   */
  lemma {:induction false} FinalResponse(events: seq<Event>, n: nat, j: nat)
    requires n < |Collect(events)| && j < |Collect(events)[n].responses|
    ensures var cs, lead, steps := Collect(events), Leading(events), Finish(events).steps;
            && n < |steps| && |steps[n].observations| == |Before(lead, n)| + |cs[n].responses|
            && steps[n].observations[|Before(lead, n)| + j] == Identified(cs, lead, n, j)
  {
    FinishDescribed(events);
    assert StepDescribed(Collect(events), Leading(events), |Collect(events)|, n, Finish(events).steps[n]);
  }

  /** In every conversation the failures are the responses that stand behind the calls of the agent in charge. */
  lemma {:induction false} FailuresAreUnmatched(events: seq<Event>)
    ensures Finish(events).failures == FailuresAfter(Collect(events), Leading(events), |Collect(events)|)
  {
    FinishDescribed(events);
  }

  function RelinkedEvents(x: Observation, y: Observation): seq<Event> {
    [AgentTurn(None, None, [ToolCall("a", "Bash", [], None)]), UserTurn("u"), ToolMessage([x]),
     UserTurn("v"), ToolMessage([y])]
  }

  lemma {:induction false} RelinkedCollected(x: Observation, y: Observation)
    ensures var e := RelinkedEvents(x, y);
            && Leading(e) == []
            && Collect(e) == [Collected(FreshStep(e[0], 0, None), []), Collected(FreshStep(e[1], 1, None), [x]),
                              Collected(FreshStep(e[3], 2, None), [y])]
  {
    var e := RelinkedEvents(x, y);
    assert e[..5] == e && e[..4][..3] == e[..3] && e[..3][..2] == e[..2] && e[..2][..1] == e[..1] && e[..1][..0] == [];
    assert e[..5][..4] == e[..4] && [] + [x] == [x] && [] + [y] == [y];
    assert TurnCount(e[..1]) == 1 && TurnCount(e[..2]) == 2 && TurnCount(e[..3]) == 2 && TurnCount(e[..4]) == 3;
    assert Leading(e[..1]) == Leading(e[..0]) == [];
    assert Leading(e[..2]) == Leading(e[..1]);
    assert Leading(e[..3]) == Leading(e[..2]);
    assert Leading(e[..4]) == Leading(e[..3]);
    assert Collect(e[..1]) == [Collected(FreshStep(e[0], 0, None), [])];
    assert Collect(e[..2]) == Collect(e[..1]) + [Collected(FreshStep(e[1], 1, None), [])];
    assert Collect(e[..3]) == Collect(e[..1]) + [Collected(FreshStep(e[1], 1, None), [x])];
    assert Collect(e[..4]) == Collect(e[..3]) + [Collected(FreshStep(e[3], 2, None), [])];
  }

  lemma {:induction false} RelinkedOffer(cs: seq<Collected>, y: Observation)
    requires |cs| == 3 && cs[0].step.role == Agent && cs[1].step.role == User && cs[2].step.role == User
    requires |cs[0].step.toolCalls| == 1 && cs[0].responses == [] && cs[2].responses == [y]
    requires y.sourceCallId != UNKNOWN
    ensures IdAfter(cs, [], 0, 0, 3) == y.sourceCallId
  {
    assert InCharge(cs, 2) == Some(0);
    assert Offer(cs, [], 0, 2, 0) == Some(y.sourceCallId);
  }

  /** The one call of an agent is linked to the first response after each of two user messages: the later one wins. */
  lemma {:induction false} CallMayBeRelinked(x: Observation, y: Observation)
    requires x.sourceCallId != UNKNOWN && y.sourceCallId != UNKNOWN
    ensures var steps := Finish(RelinkedEvents(x, y)).steps;
            && |steps| == 3 && |steps[0].toolCalls| == 1 && steps[0].toolCalls[0].id == y.sourceCallId
            && steps[1].observations == [x] && steps[2].observations == [y]
  {
    var e := RelinkedEvents(x, y);
    RelinkedCollected(x, y);
    CollectFacts(e);
    RelinkedOffer(Collect(e), y);
    FinalCallId(e, 0, 0);
    FinalResponse(e, 1, 0);
    FinalResponse(e, 2, 0);
  }
}
