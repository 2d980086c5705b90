/** What messages and blocks are read as, in terms of their own fields and texts. */
module HermesReading {
  import opened Wrappers
  import opened Text
  import opened TagScanner
  import opened OrderedDict
  import opened HermesModel
  import opened HermesText

  // ----- JSON objects -----

  /** The object has this entry. */
  ghost predicate Has(fields: Dict<string, Json>, key: string, v: Json) {
    exists i :: 0 <= i < |fields| && fields[i] == (key, v)
  }

  ghost predicate Lacks(fields: Dict<string, Json>, key: string) {
    forall i :: 0 <= i < |fields| ==> fields[i].0 != key
  }

  lemma EntryIs(fields: Dict<string, Json>, key: string)
    requires DistinctKeys(fields)
    ensures forall v :: Has(fields, key, v) <==> Get(fields, key) == Some(v)
    ensures Lacks(fields, key) <==> Get(fields, key).None?
  {
    Lookup(fields, key);
    GetFinds(fields, key);
  }

  /** Everything but null, false, zero and what is empty. */
  lemma TruthyIs(j: Json)
    ensures Truthy(j) <==> j !in {Null, Bool(false), Num(0.0), Str(""), Arr([]), Obj([])}
  {
  }

  /** The id that the object gives: a value that counts as true. */
  ghost predicate GivesId(fields: Dict<string, Json>, id: Json) {
    Has(fields, "tool_call_id", id) && id !in {Null, Bool(false), Num(0.0), Str(""), Arr([]), Obj([])}
  }

  lemma IdField(fields: Dict<string, Json>)
    requires DistinctKeys(fields)
    ensures forall id :: GivesId(fields, id) <==> ExplicitId(Obj(fields)) == Some(id)
  {
    EntryIs(fields, "tool_call_id");
  }

  // ----- a tool call block -----

  ghost predicate IsObject(rt: Runtime, body: string, fields: Dict<string, Json>) {
    rt.decode(Strip(body)) == Some(Obj(fields)) && DistinctKeys(fields)
  }

  /** The call's arguments are what is given under "arguments", or what the text there decodes to. */
  ghost predicate ReadsInput(rt: Runtime, fields: Dict<string, Json>, input: Dict<string, Json>) {
    && (Lacks(fields, "arguments") ==> input == [])
    && forall v :: Has(fields, "arguments", v) ==>
         match v
         case Obj(entries) => input == entries
         case Str(s) =>
           (match rt.decode(s)
            case Some(Obj(entries)) => input == entries
            case Some(_) => input == []
            case None => input == [("raw", Str(s))])
         case _ => input == []
  }

  ghost predicate ReadsName(fields: Dict<string, Json>, name: string) {
    Has(fields, "name", Str(name)) || (Lacks(fields, "name") && name == "unknown")
  }

  /** The call's id is the given one, or one made up of the numbers of the step and the block. */
  ghost predicate ReadsId(fields: Dict<string, Json>, step: nat, block: nat, id: string) {
    || GivesId(fields, Str(id))
    || ((forall given :: !GivesId(fields, given)) && id == "tc_" + Decimal(step) + "_" + Decimal(block))
  }

  /** The name is no text, or the given id is none. */
  ghost predicate IllTyped(fields: Dict<string, Json>) {
    || (exists v :: Has(fields, "name", v) && !v.Str?)
    || (exists id :: GivesId(fields, id) && !id.Str?)
  }

  /** What a `<tool_call>` block becomes, for each way its body can decode. */
  lemma CallBlockRead(rt: Runtime, step: nat, block: nat, body: string)
    ensures rt.decode(Strip(body)).None? ==> CallOfBlock(rt, step, block, body) == Success(None)
    ensures rt.decode(Strip(body)).Some? && !rt.decode(Strip(body)).value.Obj? ==>
              CallOfBlock(rt, step, block, body) == Failure(AttributeError)
  {
  }

  lemma CallObjectRead(rt: Runtime, step: nat, block: nat, body: string, fields: Dict<string, Json>)
    requires IsObject(rt, body, fields)
    ensures IllTyped(fields) ==> CallOfBlock(rt, step, block, body) == Failure(ValidationError)
    ensures !IllTyped(fields) ==>
              && CallOfBlock(rt, step, block, body).Success? && CallOfBlock(rt, step, block, body).value.Some?
              && var call := CallOfBlock(rt, step, block, body).value.value;
                 && ReadsName(fields, call.name) && ReadsInput(rt, fields, call.input)
                 && ReadsId(fields, step, block, call.id) && call.durationMs == None
  {
    EntryIs(fields, "name");
    EntryIs(fields, "arguments");
    IdField(fields);
  }

  // ----- a tool response block -----

  ghost predicate ReadsContent(rt: Runtime, fields: Dict<string, Json>, content: Option<string>) {
    && (Lacks(fields, "content") ==> content == None)
    && forall v :: Has(fields, "content", v) ==>
         match v
         case Null => content == None
         case Str(s) => content == Some(s)
         case Arr(_) => content == Some(rt.dumps(v))
         case Obj(_) => content == Some(rt.dumps(v))
         case Bool(_) => content == Some(rt.show(v))
         case Num(_) => content == Some(rt.show(v))
  }

  /** The summary is the first 200 characters of a content that is not empty. */
  ghost predicate Summarizes(content: Option<string>, summary: Option<string>) {
    if content in {None, Some("")} then summary == None
    else summary.Some? && summary.value <= content.value
         && |summary.value| == if |content.value| > 200 then 200 else |content.value|
  }

  /** A text without an id: at most 2000 characters of it, marked as unlinked. */
  ghost predicate IsPlain(text: string, o: Observation) {
    && o.sourceCallId == "unknown" && o.summary == None && o.error == Some("unlinked_response")
    && if text == "" then o.content == None
       else o.content.Some? && o.content.value <= text
            && |o.content.value| == if |text| > 2000 then 2000 else |text|
  }

  lemma PlainIs(text: string)
    ensures IsPlain(text, PlainResponse(text))
  {
  }

  /** What a `<tool_response>` block becomes when its body is no object. */
  lemma ResponseBlockRead(rt: Runtime, body: string)
    ensures rt.decode(Strip(body)).None? ==>
              ResponseOfBlock(rt, body).Success? && IsPlain(Strip(body), ResponseOfBlock(rt, body).value)
    ensures rt.decode(Strip(body)).Some? && !rt.decode(Strip(body)).value.Obj? ==>
              ResponseOfBlock(rt, body) == Failure(AttributeError)
  {
    PlainIs(Strip(body));
  }

  lemma ResponseObjectRead(rt: Runtime, body: string, fields: Dict<string, Json>)
    requires IsObject(rt, body, fields)
    ensures (exists id :: GivesId(fields, id) && !id.Str?) ==> ResponseOfBlock(rt, body) == Failure(ValidationError)
    ensures (forall id :: GivesId(fields, id) ==> id.Str?) ==>
              && ResponseOfBlock(rt, body).Success?
              && var o := ResponseOfBlock(rt, body).value;
                 && ReadsContent(rt, fields, o.content) && Summarizes(o.content, o.summary)
                 && if exists id :: GivesId(fields, id) then GivesId(fields, Str(o.sourceCallId)) && o.error == None
                    else o.sourceCallId == "unknown" && o.error == Some("unlinked_response")
  {
    EntryIs(fields, "content");
    IdField(fields);
  }

  /** A tool message without a block is one plain response to its whole content. */
  lemma ToolMessageRead(rt: Runtime, content: string)
    requires ToolMessageOf(rt, content).Success?
    ensures Bodies(ResponsePieces(content)) == [] ==>
              |ToolMessageOf(rt, content).value| == 1 && IsPlain(content, ToolMessageOf(rt, content).value[0])
    ensures Bodies(ResponsePieces(content)) != [] ==>
              ToolMessageOf(rt, content) == Responses(rt, Bodies(ResponsePieces(content)))
  {
    PlainIs(content);
    OneResponsePerBlock(rt, Bodies(ResponsePieces(content)));
  }

  // ----- the first block that raises decides -----

  lemma {:induction false} CallsSucceed(rt: Runtime, step: nat, bodies: seq<string>)
    ensures Calls(rt, step, bodies).Success? <==>
              forall i :: 0 <= i < |bodies| ==> CallOfBlock(rt, step, i, bodies[i]).Success?
  {
    if bodies == [] {
    } else {
      var n := |bodies| - 1;
      CallsSucceed(rt, step, bodies[..n]);
      assert forall i :: 0 <= i < n ==> bodies[..n][i] == bodies[i];
    }
  }

  /** The error of the first block that raises one is raised. */
  lemma CallsRaiseFirst(rt: Runtime, step: nat, bodies: seq<string>, i: nat)
    requires i < |bodies| && CallOfBlock(rt, step, i, bodies[i]).Failure?
    requires forall j :: 0 <= j < i ==> CallOfBlock(rt, step, j, bodies[j]).Success?
    ensures Calls(rt, step, bodies) == Failure(CallOfBlock(rt, step, i, bodies[i]).error)
  {
    CallsSucceed(rt, step, bodies[..i]);
    assert bodies[..i + 1][..i] == bodies[..i];
    CallsFailEarly(rt, step, bodies, i + 1);
  }

  lemma {:induction false} ResponsesSucceed(rt: Runtime, bodies: seq<string>)
    ensures Responses(rt, bodies).Success? <==>
              forall i :: 0 <= i < |bodies| ==> ResponseOfBlock(rt, bodies[i]).Success?
  {
    if bodies == [] {
    } else {
      var n := |bodies| - 1;
      ResponsesSucceed(rt, bodies[..n]);
      assert forall i :: 0 <= i < n ==> bodies[..n][i] == bodies[i];
    }
  }

  lemma ResponsesRaiseFirst(rt: Runtime, bodies: seq<string>, i: nat)
    requires i < |bodies| && ResponseOfBlock(rt, bodies[i]).Failure?
    requires forall j :: 0 <= j < i ==> ResponseOfBlock(rt, bodies[j]).Success?
    ensures Responses(rt, bodies) == Failure(ResponseOfBlock(rt, bodies[i]).error)
  {
    ResponsesSucceed(rt, bodies[..i]);
    assert bodies[..i + 1][..i] == bodies[..i];
    ResponsesFailEarly(rt, bodies, i + 1);
  }

  // ----- tags and the limit on the length, in one piece of text -----

  ghost predicate Delimits(open: string, close: string, before: string, body: string, after: string) {
    && !Occurs(open, before) && !Occurs(close, body) && !Matches(Tag(open, close), after)
    && |before| + |open| + |body| + |close| + |after| <= 1_048_576
  }

  lemma OneBlock(tag: Tag, before: string, body: string, after: string)
    requires tag in {THINK, TOOL_CALL, TOOL_RESPONSE}
    requires Delimits(tag.open, tag.close, before, body, after)
    ensures var text := before + (tag.open + (body + (tag.close + after)));
            && |text| <= MAX_CONTENT_LEN
            && WellFormedTag(tag) && Scan(tag, text) == Pieces([Block(before, body)], after)
            && Bodies(Scan(tag, text)) == [body] && Plain(Scan(tag, text)) == before + after
  {
    HermesTagsAreWellFormed();
    ScanOfBlock(tag, Block(before, body), after);
    ScanWithoutMatch(tag, after);
    assert [Block(before, body)] + [] == [Block(before, body)];
    var pieces := Pieces([Block(before, body)], after);
    assert pieces.blocks[1..] == [];
    assert Plain(Pieces([], after)) == after;
  }

  /** One `<think>` block: its stripped body is the reasoning, and what stands around it the text. */
  lemma OneThinkBlock(before: string, body: string, after: string)
    requires Delimits("<think>", "</think>", before, body, after)
    ensures ParseThinking(before + ("<think>" + (body + ("</think>" + after))))
         == (Strip(before + after), if Strip(body) == "" then None else Some(Strip(body)))
  {
    OneBlock(THINK, before, body, after);
    assert [body][1..] == [];
    assert NonBlank([body]) == if Strip(body) == "" then [] else [Strip(body)];
  }

  lemma CallsOfOne(rt: Runtime, step: nat, body: string)
    ensures Calls(rt, step, [body])
         == match CallOfBlock(rt, step, 0, body)
            case Failure(e) => Failure(e)
            case Success(call) => Success(if call.Some? then [call.value] else [])
  {
    var bodies := [body];
    assert bodies[..0] == [] && Calls(rt, step, bodies[..0]) == Success([]);
    assert bodies[|bodies| - 1] == body;
    if CallOfBlock(rt, step, 0, body).Success? && CallOfBlock(rt, step, 0, body).value.Some? {
      assert [] + [CallOfBlock(rt, step, 0, body).value.value] == [CallOfBlock(rt, step, 0, body).value.value];
    }
  }

  lemma ResponsesOfOne(rt: Runtime, body: string)
    ensures Responses(rt, [body])
         == match ResponseOfBlock(rt, body)
            case Failure(e) => Failure(e)
            case Success(o) => Success([o])
  {
    var bodies := [body];
    assert bodies[..0] == [] && Responses(rt, bodies[..0]) == Success([]);
    assert bodies[|bodies| - 1] == body;
    if ResponseOfBlock(rt, body).Success? {
      assert [] + [ResponseOfBlock(rt, body).value] == [ResponseOfBlock(rt, body).value];
    }
  }

  /** One `<tool_call>` block becomes the call of its body, or nothing. */
  lemma OneCallBlock(rt: Runtime, step: nat, before: string, body: string, after: string)
    requires Delimits("<tool_call>", "</tool_call>", before, body, after)
    ensures var text := before + ("<tool_call>" + (body + ("</tool_call>" + after)));
            ToolCallsOf(rt, text, step)
            == match CallOfBlock(rt, step, 0, body)
               case Failure(e) => Failure(e)
               case Success(call) => Success((Strip(before + after), if call.Some? then [call.value] else []))
  {
    OneBlock(TOOL_CALL, before, body, after);
    CallsOfOne(rt, step, body);
  }

  /** One `<tool_response>` block becomes the response of its body. */
  lemma OneResponseBlock(rt: Runtime, before: string, body: string, after: string)
    requires Delimits("<tool_response>", "</tool_response>", before, body, after)
    ensures var text := before + ("<tool_response>" + (body + ("</tool_response>" + after)));
            ToolMessageOf(rt, text)
            == match ResponseOfBlock(rt, body)
               case Failure(e) => Failure(e)
               case Success(o) => Success([o])
  {
    OneBlock(TOOL_RESPONSE, before, body, after);
    ResponsesOfOne(rt, body);
  }

  /** Nothing behind the first 1048576 characters is looked at. */
  lemma LongTextIsCut(rt: Runtime, step: nat, text: string)
    requires |text| > 1_048_576
    ensures var cut := text[..1_048_576];
            && ParseThinking(text) == ParseThinking(cut) && ToolCallsOf(rt, text, step) == ToolCallsOf(rt, cut, step)
            && ToolResponsesOf(rt, text) == ToolResponsesOf(rt, cut)
  {
  }

  lemma NonBlankOne(body: string)
    ensures NonBlank([body]) == if Strip(body) == "" then [] else [Strip(body)]
  {
    assert [body][1..] == [];
  }

  /** Reasoning goes block by block: blank ones are dropped, the others stripped, in order. */
  lemma {:induction false} NonBlankConcat(s: seq<string>, t: seq<string>)
    ensures NonBlank(s + t) == NonBlank(s) + NonBlank(t)
  {
    if s == [] {
      assert s + t == t;
    } else {
      NonBlankConcat(s[1..], t);
      assert (s + t)[1..] == s[1..] + t;
    }
  }

  // ----- the tables for names and arguments -----

  const TOOL_NAME_MAP: map<string, string> := map[
    "terminal" := "Bash", "write_file" := "Write", "read_file" := "Read", "patch" := "Edit",
    "search_files" := "Grep", "execute_code" := "Bash", "process" := "Bash"]

  /** The argument names that change; other entries of the program's table map a name to itself. */
  const ARG_NAME_MAP: map<(string, string), string> := map[
    ("patch", "path") := "file_path", ("patch", "original") := "old_string", ("patch", "replacement") := "new_string",
    ("write_file", "path") := "file_path", ("read_file", "path") := "file_path"]

  lemma NamesFollowTables(name: string, key: string)
    ensures CanonicalName(name) == if name in TOOL_NAME_MAP then TOOL_NAME_MAP[name] else name
    ensures CanonicalKey(name, key) == if (name, key) in ARG_NAME_MAP then ARG_NAME_MAP[(name, key)] else key
  {
  }

  // ----- messages -----

  /** The role of a message: `role` when it is a text and not empty, and `from` otherwise. */
  ghost predicate Speaks(rt: Runtime, m: Message, role: string) {
    if m.role !in {Absent, Nil, Field.Text("")} then role == rt.lower(m.role.text)
    else (m.sender.Text? && role == rt.lower(m.sender.text)) || (m.sender.Absent? && role == rt.lower(""))
  }

  /** The text of a message: `content` when it is not empty, then `value`. */
  ghost predicate Says(m: Message, text: string) {
    if m.content !in {Absent, Nil, Field.Text("")} then text == m.content.text
    else if m.value.Text? then text == m.value.text
    else text == ""
  }

  lemma EmptyField(f: Field)
    ensures f in {Absent, Nil, Field.Text("")} <==> !f.Text? || f.text == ""
  {
    assert f.Text? && f.text == "" ==> f == Field.Text("");
  }

  lemma MessageRead(rt: Runtime, m: Message, role: string, text: string)
    ensures Says(m, text) <==> MessageText(m) == text
    ensures Speaks(rt, m, role) <==> RoleName(rt, m) == Success(role)
    ensures RoleName(rt, m).Failure? <==> m.role in {Absent, Nil, Field.Text("")} && m.sender == Nil
  {
    EmptyField(m.role);
    EmptyField(m.content);
  }

  /** What a message becomes, by its role, for a message with that role and text. */
  lemma EventRead(rt: Runtime, m: Message, k: nat, role: string, text: string)
    requires Speaks(rt, m, role) && Says(m, text)
    ensures role == "system" ==> EventOf(rt, m, k) == Success(SystemPrompt(text, rt.hash(text)))
    ensures role in {"human", "user"} ==> EventOf(rt, m, k) == Success(UserTurn(text))
    ensures role in {"gpt", "assistant"} ==> EventOf(rt, m, k) == AgentTurnOf(rt, text, k)
    ensures role == "tool" ==>
              EventOf(rt, m, k) == match ToolMessageOf(rt, text)
                                   case Failure(e) => Failure(e)
                                   case Success(responses) => Success(ToolMessage(responses))
    ensures role !in {"system", "human", "user", "gpt", "assistant", "tool"} ==> EventOf(rt, m, k) == Success(Ignored)
  {
    MessageRead(rt, m, role, text);
  }

  /** A message without a role whose `from` is null raises an error. */
  lemma NoRoleRaises(rt: Runtime, m: Message, k: nat)
    requires m.role in {Absent, Nil, Field.Text("")} && m.sender == Nil
    ensures EventOf(rt, m, k) == Failure(AttributeError)
  {
  }

  /** The parts of an agent turn: first the reasoning is taken out of the text, then the calls. */
  lemma AgentTurnRead(rt: Runtime, text: string, k: nat)
    ensures var (rest, reasoning) := ParseThinking(text);
            match ToolCallsOf(rt, rest, k)
            case Failure(e) => AgentTurnOf(rt, text, k) == Failure(e)
            case Success(parsed) =>
              && AgentTurnOf(rt, text, k).Success?
              && var turn := AgentTurnOf(rt, text, k).value;
                 && turn.content == (if parsed.0 == "" then None else Some(parsed.0))
                 && turn.reasoning == reasoning
                 && |turn.calls| == |parsed.1|
                 && forall i :: 0 <= i < |parsed.1| ==>
                      && turn.calls[i].id == parsed.1[i].id && turn.calls[i].durationMs == None
                      && turn.calls[i].name == CanonicalName(parsed.1[i].name)
                      && turn.calls[i].input == MappedArgs(parsed.1[i].name, parsed.1[i].input)
  {
  }
}
