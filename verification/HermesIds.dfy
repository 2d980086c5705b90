/** The ids that the parser makes up for tool calls without one. */
module HermesIds {
  import opened Wrappers
  import opened Text
  import opened TagScanner
  import opened HermesModel

  predicate NoUnderscore(s: string) {
    forall i :: 0 <= i < |s| ==> s[i] != '_'
  }

  lemma SeparatorSplitsOnce(a: string, b: string, c: string, d: string)
    requires NoUnderscore(a) && NoUnderscore(c)
    requires a + ("_" + b) == c + ("_" + d)
    ensures a == c && b == d
  {
    var s, t := a + ("_" + b), c + ("_" + d);
    assert s[|a|] == '_' && t[|c|] == '_';
    assert forall i :: 0 <= i < |a| ==> s[i] == a[i];
    assert forall i :: 0 <= i < |c| ==> t[i] == c[i];
    assert |a| == |c|;
    assert s[..|a|] == a && t[..|c|] == c;
    assert s[|a| + 1..] == b && t[|c| + 1..] == d;
  }

  /** Different steps or different blocks get different ids. */
  lemma SyntheticIdInjective(stepIndex: nat, block: nat, stepIndex': nat, block': nat)
    requires SyntheticId(stepIndex, block) == SyntheticId(stepIndex', block')
    ensures stepIndex == stepIndex' && block == block'
  {
    var a, b := Decimal(stepIndex), Decimal(block);
    var c, d := Decimal(stepIndex'), Decimal(block');
    assert SyntheticId(stepIndex, block)[3..] == a + ("_" + b);
    assert SyntheticId(stepIndex', block')[3..] == c + ("_" + d);
    SeparatorSplitsOnce(a, b, c, d);
    DecimalInjective(stepIndex, stepIndex');
    DecimalInjective(block, block');
  }

  /** The blocks whose JSON decodes: each of them becomes one call. */
  function DecodedBlocks(rt: Runtime, bodies: seq<string>): (blocks: seq<nat>)
    ensures forall i :: 0 <= i < |blocks| ==> blocks[i] < |bodies| && rt.decode(Strip(bodies[blocks[i]])).Some?
    ensures forall i, j :: 0 <= i < j < |blocks| ==> blocks[i] < blocks[j]
  {
    if bodies == [] then [] else
      var n := |bodies| - 1;
      DecodedBlocks(rt, bodies[..n]) + if rt.decode(Strip(bodies[n])).Some? then [n] else []
  }

  /** The i-th call comes from the i-th block that decodes; malformed blocks still use up their number. */
  lemma {:induction false} CallsComeFromBlocks(rt: Runtime, stepIndex: nat, bodies: seq<string>)
    requires Calls(rt, stepIndex, bodies).Success?
    ensures var calls, blocks := Calls(rt, stepIndex, bodies).value, DecodedBlocks(rt, bodies);
            && |calls| == |blocks|
            && (forall i :: 0 <= i < |blocks| ==>
                  && blocks[i] < |bodies|
                  && CallOfBlock(rt, stepIndex, blocks[i], bodies[blocks[i]]) == Success(Some(calls[i])))
  {
    if bodies == [] {
    } else {
      var n := |bodies| - 1;
      CallsComeFromBlocks(rt, stepIndex, bodies[..n]);
    }
  }

  /** The block names no id of its own. */
  predicate Unnamed(rt: Runtime, body: string) {
    match rt.decode(Strip(body))
    case Some(data) => data.Obj? && ExplicitId(data).None?
    case None => false
  }

  /** The texts of the `<tool_call>` blocks of an assistant message. */
  function CallTexts(m: Message): seq<string> {
    Bodies(CallPieces(ParseThinking(MessageText(m)).0))
  }

  /** The i-th call of message m has a made-up id. */
  predicate HasSyntheticId(rt: Runtime, m: Message, i: nat) {
    var bodies := CallTexts(m);
    var blocks := DecodedBlocks(rt, bodies);
    i < |blocks| && blocks[i] < |bodies| && Unnamed(rt, bodies[blocks[i]])
  }

  lemma {:induction false} EventAt(rt: Runtime, conversation: seq<Message>, events: seq<Event>, p: nat)
    requires EventsOf(rt, conversation) == Success(events) && p < |conversation|
    ensures |events| == |conversation|
    ensures EventOf(rt, conversation[p], TurnCount(events[..p])) == Success(events[p])
  {
    var n := |conversation| - 1;
    var earlier := EventsOf(rt, conversation[..n]).value;
    assert events[..|earlier|] == earlier;
    if n == 0 {
    } else {
      EventAt(rt, conversation[..n], earlier, if p < n then p else 0);
    }
    if p < n {
      assert events[..p] == earlier[..p];
    }
  }

  /** The i-th call of the assistant message at position p has a made-up id. */
  ghost predicate MadeUp(rt: Runtime, conversation: seq<Message>, events: seq<Event>, p: nat, i: nat) {
    && p < |events| == |conversation| && events[p].AgentTurn? && i < |events[p].calls|
    && HasSyntheticId(rt, conversation[p], i)
  }

  /** The calls of an assistant message are those of its blocks, normalized. */
  lemma CallsOfTurn(rt: Runtime, m: Message, k: nat, e: Event)
    requires AgentTurnOf(rt, MessageText(m), k) == Success(e)
    ensures Calls(rt, k, CallTexts(m)).Success?
    ensures e.calls == AllNormalized(Calls(rt, k, CallTexts(m)).value)
  {
  }

  lemma MadeUpCallId(rt: Runtime, m: Message, k: nat, e: Event, i: nat)
    requires AgentTurnOf(rt, MessageText(m), k) == Success(e) && i < |e.calls| && HasSyntheticId(rt, m, i)
    ensures e.calls[i].id == SyntheticId(k, DecodedBlocks(rt, CallTexts(m))[i])
  {
    CallsOfTurn(rt, m, k, e);
    CallsComeFromBlocks(rt, k, CallTexts(m));
  }

  /** A message that becomes an agent turn was read as one. */
  lemma ReadAsAgentTurn(rt: Runtime, m: Message, k: nat, e: Event)
    requires EventOf(rt, m, k) == Success(e) && e.AgentTurn?
    ensures AgentTurnOf(rt, MessageText(m), k) == Success(e)
  {
  }

  /** A made-up id is made of the number of earlier turns and the number of the call's block. */
  lemma MadeUpId(rt: Runtime, conversation: seq<Message>, events: seq<Event>, p: nat, i: nat)
    requires EventsOf(rt, conversation) == Success(events) && MadeUp(rt, conversation, events, p, i)
    ensures events[p].calls[i].id
         == SyntheticId(TurnCount(events[..p]), DecodedBlocks(rt, CallTexts(conversation[p]))[i])
  {
    EventAt(rt, conversation, events, p);
    var k := TurnCount(events[..p]);
    ReadAsAgentTurn(rt, conversation[p], k, events[p]);
    MadeUpCallId(rt, conversation[p], k, events[p], i);
  }

  lemma {:induction false} TurnCountGrows(events: seq<Event>, p: nat, q: nat)
    requires p < q <= |events|
    ensures TurnCount(events[..q]) >= TurnCount(events[..p]) + if IsTurn(events[p]) then 1 else 0
    decreases q
  {
    assert events[..q][..q - 1] == events[..q - 1];
    if p < q - 1 {
      TurnCountGrows(events, p, q - 1);
    }
  }

  lemma TurnsAreCountedApart(events: seq<Event>, p: nat, q: nat)
    requires p < |events| && q < |events| && IsTurn(events[p]) && IsTurn(events[q])
    requires TurnCount(events[..p]) == TurnCount(events[..q])
    ensures p == q
  {
    if p < q {
      TurnCountGrows(events, p, q);
    } else if q < p {
      TurnCountGrows(events, q, p);
    }
  }

  /** Over a whole conversation, no two calls share a made-up id. */
  lemma SyntheticIdsAreDistinct(
    rt: Runtime, conversation: seq<Message>, events: seq<Event>, p: nat, i: nat, q: nat, j: nat)
    ensures EventsOf(rt, conversation) == Success(events)
            && MadeUp(rt, conversation, events, p, i) && MadeUp(rt, conversation, events, q, j)
            && events[p].calls[i].id == events[q].calls[j].id
            ==> p == q && i == j
  {
    if EventsOf(rt, conversation) == Success(events)
       && MadeUp(rt, conversation, events, p, i) && MadeUp(rt, conversation, events, q, j)
       && events[p].calls[i].id == events[q].calls[j].id {
      var b, c := DecodedBlocks(rt, CallTexts(conversation[p])), DecodedBlocks(rt, CallTexts(conversation[q]));
      MadeUpId(rt, conversation, events, p, i);
      MadeUpId(rt, conversation, events, q, j);
      SyntheticIdInjective(TurnCount(events[..p]), b[i], TurnCount(events[..q]), c[j]);
      TurnsAreCountedApart(events, p, q);
    }
  }
}
