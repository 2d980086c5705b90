/** What the three kinds of blocks in a message text come to, for texts written as pieces. */
module HermesText {
  import opened Wrappers
  import opened Text
  import opened TagScanner
  import opened HermesModel

  lemma {:induction false} NonBlankParts(bodies: seq<string>)
    ensures forall part :: part in NonBlank(bodies) ==> part != ""
    ensures NonBlank(bodies) == [] <==> forall i :: 0 <= i < |bodies| ==> Strip(bodies[i]) == ""
  {
    if bodies == [] {
    } else {
      NonBlankParts(bodies[1..]);
      assert bodies == [bodies[0]] + bodies[1..];
    }
  }

  lemma JoinIsEmpty(separator: string, parts: seq<string>)
    requires forall part :: part in parts ==> part != ""
    ensures Join(separator, parts) == "" <==> parts == []
  {
    if parts != [] {
      var last := parts[|parts| - 1];
      assert last in parts;
      assert |Join(separator, parts)| >= |last|;
    }
  }

  ghost predicate SomeNonBlank(bodies: seq<string>) {
    exists i :: 0 <= i < |bodies| && Strip(bodies[i]) != ""
  }

  lemma ReasoningOfBodies(bodies: seq<string>)
    ensures Present(Join(" ", NonBlank(bodies))).Some? <==> SomeNonBlank(bodies)
  {
    NonBlankParts(bodies);
    JoinIsEmpty(" ", NonBlank(bodies));
  }

  /** There is reasoning exactly when some think block of the (shortened) text is not blank. */
  lemma ThinkingIffNonBlank(text: string)
    ensures ParseThinking(text).1.Some? <==> SomeNonBlank(Bodies(ThinkPieces(text)))
  {
    ReasoningOfBodies(Bodies(ThinkPieces(text)));
  }

  /** A text written as canonical think pieces is read back piece by piece. */
  lemma ThinkingRoundTrip(pieces: Pieces)
    requires Canonical(THINK, pieces) && |Print(THINK, pieces)| <= MAX_CONTENT_LEN
    ensures ParseThinking(Print(THINK, pieces))
         == if pieces.blocks == [] then (pieces.tail, None)
            else (Strip(Plain(pieces)), Present(Join(" ", NonBlank(Bodies(pieces)))))
  {
    HermesTagsAreWellFormed();
    ScanOfPrint(THINK, pieces);
  }

  /** A text written as canonical tool call pieces yields the calls of their bodies and the plain text around them. */
  lemma ToolCallsRoundTrip(rt: Runtime, pieces: Pieces, stepIndex: nat)
    requires Canonical(TOOL_CALL, pieces) && |Print(TOOL_CALL, pieces)| <= MAX_CONTENT_LEN
    ensures ToolCallsOf(rt, Print(TOOL_CALL, pieces), stepIndex)
         == match Calls(rt, stepIndex, Bodies(pieces))
            case Failure(e) => Failure(e)
            case Success(calls) => Success((Strip(Plain(pieces)), calls))
  {
    HermesTagsAreWellFormed();
    ScanOfPrint(TOOL_CALL, pieces);
  }

  /** A tool message written as canonical pieces yields one response per block, or one plain response. */
  lemma ToolMessageRoundTrip(rt: Runtime, pieces: Pieces)
    requires Canonical(TOOL_RESPONSE, pieces) && |Print(TOOL_RESPONSE, pieces)| <= MAX_CONTENT_LEN
    requires Responses(rt, Bodies(pieces)).Success?
    ensures var text := Print(TOOL_RESPONSE, pieces);
            && ToolMessageOf(rt, text).Success?
            && var responses := ToolMessageOf(rt, text).value;
               if pieces.blocks == [] then responses == [PlainResponse(text)]
               else responses == Responses(rt, Bodies(pieces)).value && |responses| == |pieces.blocks|
  {
    HermesTagsAreWellFormed();
    ScanOfPrint(TOOL_RESPONSE, pieces);
    OneResponsePerBlock(rt, Bodies(pieces));
  }

  lemma {:induction false} OneResponsePerBlock(rt: Runtime, bodies: seq<string>)
    requires Responses(rt, bodies).Success?
    ensures |Responses(rt, bodies).value| == |bodies|
  {
    if bodies == [] {
    } else {
      OneResponsePerBlock(rt, bodies[..|bodies| - 1]);
    }
  }

  /** The response names a call of its own accord, or it is marked as unlinked. */
  predicate MarkedRight(o: Observation) {
    (o.error == None && o.sourceCallId != "") || (o.error == Some(UNLINKED) && o.sourceCallId == UNKNOWN)
  }

  /** The block says which call it answers. */
  predicate NamesCall(rt: Runtime, body: string) {
    match rt.decode(Strip(body))
    case None => false
    case Some(data) => data.Obj? && ExplicitId(data).Some?
  }

  /** A block's response has the block's own id, or else it is marked as unlinked. */
  ghost predicate MarkedAs(rt: Runtime, body: string, o: Observation) {
    && MarkedRight(o)
    && (o.error == Some(UNLINKED) <==> !NamesCall(rt, body))
    && (NamesCall(rt, body) ==> ExplicitId(rt.decode(Strip(body)).value) == Some(Str(o.sourceCallId)))
  }

  lemma ResponseIsMarked(rt: Runtime, body: string)
    requires ResponseOfBlock(rt, body).Success?
    ensures MarkedAs(rt, body, ResponseOfBlock(rt, body).value)
  {
  }

  lemma {:induction false} ResponseAt(rt: Runtime, bodies: seq<string>, i: nat)
    requires Responses(rt, bodies).Success? && i < |bodies|
    ensures |Responses(rt, bodies).value| == |bodies|
    ensures ResponseOfBlock(rt, bodies[i]) == Success(Responses(rt, bodies).value[i])
  {
    OneResponsePerBlock(rt, bodies);
    var n := |bodies| - 1;
    if i == n {
    } else {
      ResponseAt(rt, bodies[..n], i);
    }
  }

  lemma ResponsesAreMarked(rt: Runtime, bodies: seq<string>)
    requires Responses(rt, bodies).Success?
    ensures var os := Responses(rt, bodies).value;
            |os| == |bodies| && forall i :: 0 <= i < |bodies| ==> MarkedAs(rt, bodies[i], os[i])
  {
    OneResponsePerBlock(rt, bodies);
    forall i | 0 <= i < |bodies| ensures MarkedAs(rt, bodies[i], Responses(rt, bodies).value[i]) {
      ResponseAt(rt, bodies, i);
      ResponseIsMarked(rt, bodies[i]);
    }
  }

  /**
   A tool message always yields a response. A block's response is marked unlinked if and only if the block does not
   decode or holds no id, and it has the block's id otherwise; the response to a text without blocks is marked.
   */
  lemma ToolMessagesAreMarked(rt: Runtime, text: string)
    requires ToolMessageOf(rt, text).Success?
    ensures var os, bodies := ToolMessageOf(rt, text).value, Bodies(ResponsePieces(text));
            if bodies == [] then |os| == 1 && os[0].error == Some(UNLINKED) && os[0].sourceCallId == UNKNOWN
            else |os| == |bodies| && forall i :: 0 <= i < |bodies| ==> MarkedAs(rt, bodies[i], os[i])
  {
    ResponsesAreMarked(rt, Bodies(ResponsePieces(text)));
  }
}
