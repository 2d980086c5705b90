/** Which step receives a tool response, and when none ends up on a user step. */
module HermesFolding {
  import opened Wrappers
  import opened HermesModel
  import opened HermesMachine
  import opened HermesLinking

  // ----- every step receives the responses that follow its message -----

  /** The responses that arrive for a step: the first one also gets those that came before any turn. */
  function Due(cs: seq<Collected>, lead: seq<Observation>, k: nat): seq<Observation>
    requires k < |cs|
  {
    (if k == 0 then lead else []) + cs[k].responses
  }

  ghost predicate Delivers(st: State, cs: seq<Collected>, lead: seq<Observation>) {
    && LastUnflushed(st) && |st.steps| == |cs|
    && (cs == [] ==> st.pending == lead)
    && forall k :: 0 <= k < |cs| ==> CarriesAll(Flush(st).steps[k].observations, Due(cs, lead, k))
  }

  /** A turn closes the step before it; the first turn receives what is waiting. */
  lemma TurnDelivers(st: State, e: Event, cs: seq<Collected>, lead: seq<Observation>, c: Collected)
    requires Delivers(st, cs, lead) && IsTurn(e) && c.responses == []
    ensures Delivers(Apply(st, e), cs + [c], lead)
  {
    var st' := Apply(st, e);
    FlushLast(st');
    if cs == [] {
      assert Due([c], lead, 0) == lead;
    } else {
      assert st'.pending == [];
      assert forall k :: 0 <= k < |cs| ==> Due(cs + [c], lead, k) == Due(cs, lead, k);
      assert Due(cs + [c], lead, |cs|) == [];
    }
  }

  lemma LinkDelivers(st: State, responses: seq<Observation>, cs: seq<Collected>, lead: seq<Observation>)
    requires Delivers(st, cs, lead) && cs != []
    ensures var last := |cs| - 1;
            Delivers(Link(st, responses), cs[last := cs[last].(responses := cs[last].responses + responses)], lead)
  {
    var last := |cs| - 1;
    var cs' := cs[last := cs[last].(responses := cs[last].responses + responses)];
    var linked := LinkCarries(st, responses);
    FlushLast(st);
    FlushLast(Link(st, responses));
    assert Due(cs', lead, last) == Due(cs, lead, last) + responses;
    CarriesAppend(st.pending, Due(cs, lead, last), linked, responses);
    assert forall k :: 0 <= k < last ==> Due(cs', lead, k) == Due(cs, lead, k);
  }

  lemma {:induction false} RunDelivers(events: seq<Event>)
    ensures Delivers(Run(events), Collect(events), Leading(events))
  {
    if events == [] {
    } else {
      var n := |events| - 1;
      var st, e, cs := Run(events[..n]), events[n], Collect(events[..n]);
      RunDelivers(events[..n]);
      CollectFacts(events[..n]);
      if IsTurn(e) {
        TurnDelivers(st, e, cs, Leading(events), Collected(FreshStep(e, |cs|, LatestHash(events[..n])), []));
      } else if e.ToolMessage? && cs != [] {
        LinkDelivers(st, e.responses, cs, Leading(events));
      } else {
        assert Flush(Apply(st, e)).steps == Flush(st).steps;
      }
    }
  }

  /**
   In every conversation a step's observations are the responses that arrive between its message and the next turn,
   in order, whatever its role; the first step's are preceded by the responses from before any turn.
   */
  lemma StepsReceiveWhatFollows(events: seq<Event>, k: nat)
    requires k < |Collect(events)|
    ensures k < |Finish(events).steps| && Finish(events).steps[k].role == Collect(events)[k].step.role
    ensures CarriesAll(Finish(events).steps[k].observations, Due(Collect(events), Leading(events), k))
  {
    RunDelivers(events);
    TurnsAreKept(events);
    FlushKeepsTurns(Run(events));
    SameTurnFields(Run(events).steps[k], Collect(events)[k].step);
    SameTurnFields(Flush(Run(events)).steps[k], Run(events).steps[k]);
  }

  // ----- when no user step receives a response -----

  /** No user step carries an observation. */
  ghost predicate UserStepsBare(steps: seq<Step>) {
    forall k :: 0 <= k < |steps| && steps[k].role == User ==> steps[k].observations == []
  }

  predicate UserFirst(events: seq<Event>) {
    FirstTurn(events).Some? && FirstTurn(events).value.UserTurn?
  }

  predicate Responds(e: Event) {
    e.ToolMessage? && e.responses != []
  }

  /**
   Every tool message that holds a response has an assistant as its nearest earlier turn, or it comes before any
   turn and the first turn, if any, is not a user's.
   */
  ghost predicate FollowsAssistants(events: seq<Event>) {
    forall i :: 0 <= i < |events| && Responds(events[i]) ==>
      AfterAgent(events, i) || (TurnCount(events[..i]) == 0 && !UserFirst(events))
  }

  lemma {:induction false} AfterAgentIffLast(events: seq<Event>, n: nat)
    requires n <= |events|
    ensures var c := Collect(events[..n]);
            AfterAgent(events, n) <==> c != [] && c[|c| - 1].step.role == Agent
  {
    var c := Collect(events[..n]);
    if AfterAgent(events, n) {
      LastTurnIsAgent(events, n);
    }
    if c != [] && c[|c| - 1].step.role == Agent {
      assert events[..n][..n - 1] == events[..n - 1];
      if IsTurn(events[n - 1]) {
        assert events[n - 1].AgentTurn?;
      } else {
        AfterAgentIffLast(events, n - 1);
        var j :| 0 <= j < n - 1 && events[j].AgentTurn? && forall k :: j < k < n - 1 ==> !IsTurn(events[k]);
        assert forall k :: j < k < n ==> !IsTurn(events[k]);
      }
    }
  }

  ghost predicate UsersGetNothing(cs: seq<Collected>) {
    forall k :: 0 <= k < |cs| && cs[k].step.role == User ==> cs[k].responses == []
  }

  /** A response at position i does not follow a user message. */
  ghost predicate NotAfterUser(events: seq<Event>, i: nat)
    requires i < |events|
  {
    Responds(events[i]) ==> AfterAgent(events, i) || TurnCount(events[..i]) == 0
  }

  lemma NotAfterUserPrefix(events: seq<Event>, n: nat, i: nat)
    requires i < n <= |events|
    ensures NotAfterUser(events[..n], i) <==> NotAfterUser(events, i)
  {
    assert events[..n][..i] == events[..i];
    AfterAgentIffLast(events, i);
    AfterAgentIffLast(events[..n], i);
  }

  lemma NewTurnGetsNothing(cs: seq<Collected>, c: Collected)
    requires c.responses == []
    ensures UsersGetNothing(cs + [c]) <==> UsersGetNothing(cs)
  {
    assert forall k :: 0 <= k < |cs| ==> (cs + [c])[k] == cs[k];
  }

  lemma LastTurnGets(cs: seq<Collected>, responses: seq<Observation>)
    requires cs != []
    ensures var last := |cs| - 1;
            (UsersGetNothing(cs[last := cs[last].(responses := cs[last].responses + responses)])
             <==> UsersGetNothing(cs) && (responses == [] || cs[last].step.role == Agent))
  {
    var last := |cs| - 1;
    var cs' := cs[last := cs[last].(responses := cs[last].responses + responses)];
    assert |cs'[last].responses| == |cs[last].responses| + |responses|;
    assert forall k :: 0 <= k < last ==> cs'[k] == cs[k];
    assert cs'[last].step == cs[last].step;
    assert cs[last].step.role == User ==> (cs'[last].responses == [] <==> cs[last].responses == [] && responses == []);
  }

  lemma LastGetsNothing(events: seq<Event>)
    requires events != []
    ensures UsersGetNothing(Collect(events))
       <==> UsersGetNothing(Collect(events[..|events| - 1])) && NotAfterUser(events, |events| - 1)
  {
    var n := |events| - 1;
    var earlier, e := Collect(events[..n]), events[n];
    CollectFacts(events[..n]);
    AfterAgentIffLast(events, n);
    if IsTurn(e) {
      NewTurnGetsNothing(earlier, Collected(FreshStep(e, |earlier|, LatestHash(events[..n])), []));
    } else if e.ToolMessage? && earlier != [] {
      LastTurnGets(earlier, e.responses);
    }
  }

  /** The user turns' own responses: none, exactly when every response follows an assistant or no turn. */
  lemma {:induction false} UsersGetNothingIff(events: seq<Event>)
    ensures UsersGetNothing(Collect(events)) <==> forall i :: 0 <= i < |events| ==> NotAfterUser(events, i)
  {
    if events == [] {
    } else {
      var n := |events| - 1;
      UsersGetNothingIff(events[..n]);
      LastGetsNothing(events);
      forall i | 0 <= i < n ensures NotAfterUser(events[..n], i) <==> NotAfterUser(events, i) {
        NotAfterUserPrefix(events, n, i);
      }
    }
  }

  /** A response at position i does not come before any turn. */
  ghost predicate AfterTurn(events: seq<Event>, i: nat)
    requires i < |events|
  {
    Responds(events[i]) ==> TurnCount(events[..i]) != 0
  }

  lemma AfterTurnPrefix(events: seq<Event>, n: nat, i: nat)
    requires i < n <= |events|
    ensures AfterTurn(events[..n], i) <==> AfterTurn(events, i)
  {
    assert events[..n][..i] == events[..i];
  }

  lemma LeadGrows(events: seq<Event>)
    requires events != []
    ensures Leading(events) == [] <==> Leading(events[..|events| - 1]) == [] && AfterTurn(events, |events| - 1)
  {
  }

  lemma {:induction false} NoLeadIff(events: seq<Event>)
    ensures Leading(events) == [] <==> forall i :: 0 <= i < |events| ==> AfterTurn(events, i)
  {
    if events == [] {
    } else {
      var n := |events| - 1;
      NoLeadIff(events[..n]);
      LeadGrows(events);
      forall i | 0 <= i < n ensures AfterTurn(events[..n], i) <==> AfterTurn(events, i) {
        AfterTurnPrefix(events, n, i);
      }
    }
  }

  lemma {:induction false} FirstTurnIsFirst(events: seq<Event>)
    ensures UserFirst(events) <==> Collect(events) != [] && Collect(events)[0].step.role == User
    ensures FirstTurn(events).Some? <==> Collect(events) != []
  {
    if events == [] {
    } else {
      FirstTurnIsFirst(events[..|events| - 1]);
      CollectFacts(events[..|events| - 1]);
    }
  }

  lemma BareIffNothingDue(events: seq<Event>)
    ensures UserStepsBare(Finish(events).steps)
       <==> UsersGetNothing(Collect(events)) && (UserFirst(events) ==> Leading(events) == [])
  {
    var cs, lead, steps := Collect(events), Leading(events), Finish(events).steps;
    FirstTurnIsFirst(events);
    CollectFacts(events);
    FlushKeepsTurns(Run(events));
    forall k | 0 <= k < |cs|
      ensures steps[k].role == cs[k].step.role
      ensures steps[k].observations == [] <==> cs[k].responses == [] && (k == 0 ==> lead == [])
    {
      StepsReceiveWhatFollows(events, k);
      assert |Due(cs, lead, k)| == (if k == 0 then |lead| else 0) + |cs[k].responses|;
    }
    assert |steps| == |cs|;
  }

  lemma AfterAgentHasTurn(events: seq<Event>, i: nat)
    requires i <= |events| && AfterAgent(events, i)
    ensures TurnCount(events[..i]) != 0
  {
    AfterAgentIffLast(events, i);
    CollectFacts(events[..i]);
  }

  /** Tool responses end up on assistant steps only, if and only if they follow assistant messages. */
  lemma UserStepsBareIffFollowsAssistants(events: seq<Event>)
    ensures UserStepsBare(Finish(events).steps) <==> FollowsAssistants(events)
  {
    BareIffNothingDue(events);
    UsersGetNothingIff(events);
    NoLeadIff(events);
    forall i | 0 <= i < |events| && AfterAgent(events, i) ensures TurnCount(events[..i]) != 0 {
      AfterAgentHasTurn(events, i);
    }
    if FollowsAssistants(events) {
      assert forall i :: 0 <= i < |events| ==> NotAfterUser(events, i) && (UserFirst(events) ==> AfterTurn(events, i));
    }
    if UserStepsBare(Finish(events).steps) {
      forall i | 0 <= i < |events| && Responds(events[i])
        ensures AfterAgent(events, i) || (TurnCount(events[..i]) == 0 && !UserFirst(events))
      {
        assert NotAfterUser(events, i) && (UserFirst(events) ==> AfterTurn(events, i));
      }
    }
  }

  /** A response after a user message goes onto the user's step. */
  lemma UserStepMayReceiveResponses(text: string, response: Observation)
    ensures var events := [UserTurn(text), ToolMessage([response])];
            && !FollowsAssistants(events)
            && Finish(events).steps == [Step(0, User, Some(text), None, None, [], [response])]
  {
    var e0, e1 := UserTurn(text), ToolMessage([response]);
    assert [e0, e1][..1] == [e0] && [e0][..0] == [];
    assert Run([e0]) == Apply(INITIAL, e0);
    assert [] + [response] == [response];
    assert Run([e0, e1]) == Link(Run([e0]), [response]);
    var steps := Finish([e0, e1]).steps;
    assert steps[0].role == User && steps[0].observations == [response];
    UserStepsBareIffFollowsAssistants([e0, e1]);
  }
}
