/** The reward that a conversation reports: found by id, meant by position. */
module HermesReward {
  import opened Wrappers
  import opened OrderedDict
  import opened HermesModel
  import opened HermesMachine
  import opened HermesLinking
  import opened HermesSettling

  const RL_TOOL := "rl_get_results"

  /** The reward in the content of an observation, if it holds one. */
  function RewardIn(rt: Runtime, o: Observation): Option<real> {
    if o.content.None? || o.content.value == "" then None else
      match rt.decode(o.content.value)
      case None => None
      case Some(data) =>
        if !data.Obj? then None else
          var reward: Option<Json> := Get(data.fields, "reward");
          if reward.None? then None else
            match rt.toFloat(reward.value)
            case Number(r) => Some(r)
            case _ => None
  }

  /** The observation holds a reward that no float can hold; the program does not catch that error. */
  predicate Overflows(rt: Runtime, o: Observation) {
    && o.content.Some? && o.content.value != ""
    && rt.decode(o.content.value).Some? && rt.decode(o.content.value).value.Obj?
    && var reward: Option<Json> := Get(rt.decode(o.content.value).value.fields, "reward");
       reward.Some? && rt.toFloat(reward.value) == TooLarge
  }

  /** The content decodes to an object with these entries; a blank content is not looked at. */
  ghost predicate HoldsObject(rt: Runtime, o: Observation, fields: Dict<string, Json>) {
    o.content.Some? && o.content.value != "" && rt.decode(o.content.value) == Some(Obj(fields))
  }

  /** The reward is the number that `float` makes of the entry "reward" of the decoded content. */
  lemma RewardIsRead(rt: Runtime, o: Observation, fields: Dict<string, Json>, i: nat)
    requires HoldsObject(rt, o, fields) && DistinctKeys(fields) && i < |fields| && fields[i].0 == "reward"
    ensures forall r :: RewardIn(rt, o) == Some(r) <==> rt.toFloat(fields[i].1) == Number(r)
    ensures Overflows(rt, o) <==> rt.toFloat(fields[i].1) == TooLarge
  {
    Lookup(fields, "reward");
  }

  /** Without such an entry there is none. */
  lemma NoRewardRead(rt: Runtime, o: Observation)
    requires forall fields: Dict<string, Json>, i :: HoldsObject(rt, o, fields) && 0 <= i < |fields| ==>
               fields[i].0 != "reward"
    ensures RewardIn(rt, o) == None && !Overflows(rt, o)
  {
    if o.content.Some? && o.content.value != "" && rt.decode(o.content.value).Some?
       && rt.decode(o.content.value).value.Obj? {
      var fields := rt.decode(o.content.value).value.fields;
      assert HoldsObject(rt, o, fields);
      GetFinds(fields, "reward");
    }
  }

  ghost predicate SomeOverflow(rt: Runtime, ids: set<string>, os: seq<Observation>) {
    exists o :: o in os && o.sourceCallId in ids && Overflows(rt, o)
  }

  function RlIds(steps: seq<Step>): set<string> {
    set k, i | 0 <= k < |steps| && 0 <= i < |steps[k].toolCalls| && steps[k].toolCalls[i].name == RL_TOOL ::
      steps[k].toolCalls[i].id
  }

  /** The reward of the last observation that names one of the ids and holds a reward. */
  function LastReward(rt: Runtime, ids: set<string>, os: seq<Observation>): Option<real> {
    if os == [] then None else
      var o := os[|os| - 1];
      if o.sourceCallId in ids && RewardIn(rt, o).Some? then RewardIn(rt, o)
      else LastReward(rt, ids, os[..|os| - 1])
  }

  /** The ids are those of the calls of "rl_get_results". */
  lemma RlIdsAreNamed(steps: seq<Step>, id: string)
    ensures id in RlIds(steps) <==>
              exists k, i :: && 0 <= k < |steps| && 0 <= i < |steps[k].toolCalls|
                             && steps[k].toolCalls[i].name == "rl_get_results" && steps[k].toolCalls[i].id == id
  {
  }

  /** Observation i names one of the ids and holds a reward. */
  predicate Reports(rt: Runtime, ids: set<string>, os: seq<Observation>, i: int) {
    0 <= i < |os| && os[i].sourceCallId in ids && RewardIn(rt, os[i]).Some?
  }

  lemma {:induction false} LastRewardIsLast(rt: Runtime, ids: set<string>, os: seq<Observation>, i: nat)
    requires Reports(rt, ids, os, i) && forall j :: i < j < |os| ==> !Reports(rt, ids, os, j)
    ensures LastReward(rt, ids, os) == RewardIn(rt, os[i])
  {
    var n := |os| - 1;
    if i == n {
    } else {
      assert !Reports(rt, ids, os, n);
      forall j | i < j < n ensures !Reports(rt, ids, os[..n], j) {
        assert !Reports(rt, ids, os, j);
      }
      LastRewardIsLast(rt, ids, os[..n], i);
    }
  }

  lemma {:induction false} NothingReported(rt: Runtime, ids: set<string>, os: seq<Observation>)
    requires forall i :: !Reports(rt, ids, os, i)
    ensures LastReward(rt, ids, os) == None
  {
    if os == [] {
    } else {
      var n := |os| - 1;
      assert !Reports(rt, ids, os, n);
      forall i ensures !Reports(rt, ids, os[..n], i) {
        assert !Reports(rt, ids, os, i);
      }
      NothingReported(rt, ids, os[..n]);
    }
  }

  lemma {:induction false} NoIdsNoReward(rt: Runtime, os: seq<Observation>)
    ensures LastReward(rt, {}, os) == None
  {
    if os == [] {
    } else {
      NoIdsNoReward(rt, os[..|os| - 1]);
    }
  }

  /** What the scan reports after these observations. */
  ghost function Scanned(rt: Runtime, ids: set<string>, os: seq<Observation>): Result<Option<real>, PyError> {
    if SomeOverflow(rt, ids, os) then Failure(OverflowError) else Success(LastReward(rt, ids, os))
  }

  lemma ScanOneMore(rt: Runtime, ids: set<string>, os: seq<Observation>, o: Observation)
    ensures SomeOverflow(rt, ids, os + [o])
       <==> SomeOverflow(rt, ids, os) || (o.sourceCallId in ids && Overflows(rt, o))
    ensures LastReward(rt, ids, os + [o])
         == if o.sourceCallId in ids && RewardIn(rt, o).Some? then RewardIn(rt, o) else LastReward(rt, ids, os)
  {
    assert (os + [o])[..|os|] == os;
    if SomeOverflow(rt, ids, os) {
      var o' :| o' in os && o'.sourceCallId in ids && Overflows(rt, o');
      assert o' in os + [o];
    }
    assert o in os + [o];
  }

  lemma OverflowStays(rt: Runtime, ids: set<string>, os: seq<Observation>, more: seq<Observation>)
    requires SomeOverflow(rt, ids, os)
    ensures SomeOverflow(rt, ids, os + more)
  {
    var o :| o in os && o.sourceCallId in ids && Overflows(rt, o);
    assert o in os + more;
  }

  /** One round of the inner loop: an overflow decides the scan, and a reward replaces the one before. */
  lemma ScanNext(rt: Runtime, ids: set<string>, before: seq<Observation>, os: seq<Observation>, i: nat,
                 reward: Option<real>)
    requires i < |os| && Scanned(rt, ids, before + os[..i]) == Success(reward)
    ensures os[i].sourceCallId in ids && Overflows(rt, os[i]) ==>
              Scanned(rt, ids, before + os) == Failure(OverflowError)
    ensures !(os[i].sourceCallId in ids && Overflows(rt, os[i])) ==>
              Scanned(rt, ids, before + os[..i + 1])
              == Success(if os[i].sourceCallId in ids && RewardIn(rt, os[i]).Some? then RewardIn(rt, os[i]) else reward)
  {
    ScanOneMore(rt, ids, before + os[..i], os[i]);
    assert before + os[..i + 1] == before + os[..i] + [os[i]];
    if os[i].sourceCallId in ids && Overflows(rt, os[i]) {
      assert os[i] in before + os;
    }
  }

  /** The inner loop: the observations of one step on top of those before. */
  method ScanStep(rt: Runtime, ids: set<string>, ghost before: seq<Observation>, os: seq<Observation>,
                  start: Option<real>)
    returns (r: Result<Option<real>, PyError>)
    requires Scanned(rt, ids, before) == Success(start)
    ensures r == Scanned(rt, ids, before + os)
  {
    var reward := start;
    assert before + os[..0] == before;
    for i := 0 to |os|
      invariant Scanned(rt, ids, before + os[..i]) == Success(reward)
    {
      ScanNext(rt, ids, before, os, i, reward);
      if os[i].sourceCallId in ids {
        if Overflows(rt, os[i]) {
          return Failure(OverflowError);
        }
        var found := RewardIn(rt, os[i]);
        if found.Some? {
          reward := found;
        }
      }
    }
    assert os[..|os|] == os;
    r := Success(reward);
  }

  lemma {:induction false} ObservedPrefix(steps: seq<Step>, k: nat) returns (rest: seq<Observation>)
    requires k <= |steps|
    ensures Observed(steps) == Observed(steps[..k]) + rest
  {
    if k == |steps| {
      rest := [];
      assert steps[..k] == steps;
    } else {
      var n := |steps| - 1;
      var earlier := ObservedPrefix(steps[..n], k);
      rest := earlier + steps[n].observations;
      assert steps[..n][..k] == steps[..k];
    }
  }

  /** The scan over all observations of all steps; later rewards replace earlier ones, and an overflow ends it. */
  method ScanRewards(rt: Runtime, steps: seq<Step>) returns (r: Result<Option<real>, PyError>)
    ensures SomeOverflow(rt, RlIds(steps), Observed(steps)) ==> r == Failure(OverflowError)
    ensures !SomeOverflow(rt, RlIds(steps), Observed(steps)) ==>
              r == Success(LastReward(rt, RlIds(steps), Observed(steps)))
  {
    var ids := RlIds(steps);
    if ids == {} {
      NoIdsNoReward(rt, Observed(steps));
      return Success(None);
    }
    var reward: Option<real> := None;
    for k := 0 to |steps|
      invariant Scanned(rt, ids, Observed(steps[..k])) == Success(reward)
    {
      assert steps[..k + 1][..k] == steps[..k];
      var scanned := ScanStep(rt, ids, Observed(steps[..k]), steps[k].observations, reward);
      if scanned.Failure? {
        ghost var rest := ObservedPrefix(steps, k + 1);
        OverflowStays(rt, ids, Observed(steps[..k + 1]), rest);
        return scanned;
      }
      reward := scanned.value;
    }
    assert steps[..|steps|] == steps;
    r := Success(reward);
  }

  // ----- the reward by position -----

  /** Observation i of the step answers an rl_get_results call and holds a reward. */
  predicate Rewards(rt: Runtime, step: Step, i: nat)
    requires i < |step.observations|
  {
    i < |step.toolCalls| && step.toolCalls[i].name == RL_TOOL && RewardIn(rt, step.observations[i]).Some?
  }

  /** The last reward among the first n observations of the step, answers counted by position. */
  function RewardByPosition(rt: Runtime, step: Step, n: nat): Option<real>
    requires n <= |step.observations|
  {
    if n == 0 then None
    else if Rewards(rt, step, n - 1) then RewardIn(rt, step.observations[n - 1])
    else RewardByPosition(rt, step, n - 1)
  }

  function LastRewardByPosition(rt: Runtime, steps: seq<Step>): Option<real> {
    if steps == [] then None else
      var last := steps[|steps| - 1];
      var own := RewardByPosition(rt, last, |last.observations|);
      if own.Some? then own else LastRewardByPosition(rt, steps[..|steps| - 1])
  }

  /** The ids single out exactly the observations that answer an rl_get_results call by position. */
  ghost predicate IdsMeanPositions(steps: seq<Step>, ids: set<string>) {
    forall k, i :: 0 <= k < |steps| && 0 <= i < |steps[k].observations| ==>
      (steps[k].observations[i].sourceCallId in ids
       <==> i < |steps[k].toolCalls| && steps[k].toolCalls[i].name == RL_TOOL)
  }

  lemma {:induction false} StepRewards(rt: Runtime, ids: set<string>, before: seq<Observation>, step: Step, n: nat)
    requires n <= |step.observations|
    requires forall i :: 0 <= i < |step.observations| ==>
               (step.observations[i].sourceCallId in ids <==> i < |step.toolCalls| && step.toolCalls[i].name == RL_TOOL)
    ensures LastReward(rt, ids, before + step.observations[..n])
         == var own := RewardByPosition(rt, step, n); if own.Some? then own else LastReward(rt, ids, before)
  {
    var os := before + step.observations[..n];
    if n == 0 {
      assert os == before;
    } else {
      StepRewards(rt, ids, before, step, n - 1);
      assert os[..|os| - 1] == before + step.observations[..n - 1];
      assert os[|os| - 1] == step.observations[n - 1];
    }
  }

  lemma {:induction false} RewardsByPosition(rt: Runtime, steps: seq<Step>, ids: set<string>)
    requires IdsMeanPositions(steps, ids)
    ensures LastReward(rt, ids, Observed(steps)) == LastRewardByPosition(rt, steps)
  {
    if steps == [] {
    } else {
      var n := |steps| - 1;
      RewardsByPosition(rt, steps[..n], ids);
      StepRewards(rt, ids, Observed(steps[..n]), steps[n], |steps[n].observations|);
      assert steps[n].observations[..|steps[n].observations|] == steps[n].observations;
    }
  }

  lemma {:induction false} ObservedAt(steps: seq<Step>, o: Observation) returns (k: nat, i: nat)
    requires o in Observed(steps)
    ensures k < |steps| && i < |steps[k].observations| && steps[k].observations[i] == o
  {
    var n := |steps| - 1;
    if o in steps[n].observations {
      k := n;
      i :| 0 <= i < |steps[n].observations| && steps[n].observations[i] == o;
    } else {
      k, i := ObservedAt(steps[..n], o);
    }
  }

  /** Observation i of step k stands at the position of an rl_get_results call and holds a reward too large. */
  predicate OverflowsAt(rt: Runtime, steps: seq<Step>, k: int, i: int) {
    && 0 <= k < |steps| && 0 <= i < |steps[k].observations| && i < |steps[k].toolCalls|
    && steps[k].toolCalls[i].name == RL_TOOL && Overflows(rt, steps[k].observations[i])
  }

  lemma OverflowsByPosition(rt: Runtime, steps: seq<Step>, ids: set<string>)
    requires IdsMeanPositions(steps, ids)
    ensures SomeOverflow(rt, ids, Observed(steps)) <==> exists k, i :: OverflowsAt(rt, steps, k, i)
  {
    if SomeOverflow(rt, ids, Observed(steps)) {
      var o :| o in Observed(steps) && o.sourceCallId in ids && Overflows(rt, o);
      var k, i := ObservedAt(steps, o);
      assert OverflowsAt(rt, steps, k, i);
    }
    if k, i :| OverflowsAt(rt, steps, k, i) {
      ObservedMember(steps, k, steps[k].observations[i]);
    }
  }

  // ----- when the scan by id means positions -----

  predicate IsCall(cs: seq<Collected>, k: int, i: int) {
    0 <= k < |cs| && 0 <= i < |cs[k].step.toolCalls|
  }

  predicate IsResponse(cs: seq<Collected>, k: int, j: int) {
    0 <= k < |cs| && 0 <= j < |cs[k].responses|
  }

  /** Position i of the turn belongs to an rl_get_results call. */
  predicate AtRlCall(c: Collected, i: int) {
    0 <= i < |c.step.toolCalls| && c.step.toolCalls[i].name == RL_TOOL
  }

  /** The id of call i after linking: the response at its position may have given it another one. */
  function LinkedCallId(c: Collected, i: nat): string
    requires i < |c.step.toolCalls|
  {
    if i < |c.responses| && c.responses[i].sourceCallId != UNKNOWN then c.responses[i].sourceCallId
    else c.step.toolCalls[i].id
  }

  /** The call that response j names after linking. */
  function LinkedResponseId(c: Collected, j: nat): string
    requires j < |c.responses|
  {
    if c.responses[j].sourceCallId == UNKNOWN && j < |c.step.toolCalls| then c.step.toolCalls[j].id
    else c.responses[j].sourceCallId
  }

  /** No response that stands elsewhere names an rl_get_results call. */
  ghost predicate NoStray(cs: seq<Collected>) {
    forall k, j, k', i ::
      IsResponse(cs, k, j) && !AtRlCall(cs[k], j) && IsCall(cs, k', i) && AtRlCall(cs[k'], i) ==>
        LinkedResponseId(cs[k], j) != LinkedCallId(cs[k'], i)
  }

  lemma LinkedIds(cs: seq<Collected>)
    ensures forall k, i :: IsCall(cs, k, i) ==>
              && i < |AllAnswered(cs)[k].toolCalls|
              && AllAnswered(cs)[k].toolCalls[i].id == LinkedCallId(cs[k], i)
              && AllAnswered(cs)[k].toolCalls[i].name == cs[k].step.toolCalls[i].name
    ensures forall k, j :: IsResponse(cs, k, j) ==>
              && j < |AllAnswered(cs)[k].observations|
              && AllAnswered(cs)[k].observations[j].sourceCallId == LinkedResponseId(cs[k], j)
              && AllAnswered(cs)[k].observations[j].content == cs[k].responses[j].content
  {
  }

  /** The ids that the scan looks for. */
  lemma RlIdsAre(cs: seq<Collected>, id: string)
    ensures id in RlIds(AllAnswered(cs))
       <==> exists k, i :: IsCall(cs, k, i) && AtRlCall(cs[k], i) && LinkedCallId(cs[k], i) == id
  {
    LinkedIds(cs);
    var steps := AllAnswered(cs);
    if id in RlIds(steps) {
      var k, i :| 0 <= k < |steps| && 0 <= i < |steps[k].toolCalls|
                  && steps[k].toolCalls[i].name == RL_TOOL && steps[k].toolCalls[i].id == id;
      assert IsCall(cs, k, i) && AtRlCall(cs[k], i) && LinkedCallId(cs[k], i) == id;
    }
    if k, i :| IsCall(cs, k, i) && AtRlCall(cs[k], i) && LinkedCallId(cs[k], i) == id {
      assert steps[k].toolCalls[i].name == RL_TOOL && steps[k].toolCalls[i].id == id;
    }
  }

  /** A response at the position of an rl_get_results call names that call. */
  lemma OwnResponseNamesCall(cs: seq<Collected>, k: int, j: int)
    requires IsResponse(cs, k, j) && AtRlCall(cs[k], j)
    ensures LinkedResponseId(cs[k], j) in RlIds(AllAnswered(cs))
  {
    assert IsCall(cs, k, j) && LinkedCallId(cs[k], j) == LinkedResponseId(cs[k], j);
    RlIdsAre(cs, LinkedResponseId(cs[k], j));
  }

  /** The ids single out the positions of rl_get_results calls if and only if there is no stray response. */
  lemma PositionsIffNoStray(cs: seq<Collected>)
    ensures IdsMeanPositions(AllAnswered(cs), RlIds(AllAnswered(cs))) <==> NoStray(cs)
  {
    LinkedIds(cs);
    var steps, ids := AllAnswered(cs), RlIds(AllAnswered(cs));
    if NoStray(cs) {
      forall k, j | 0 <= k < |steps| && 0 <= j < |steps[k].observations|
        ensures steps[k].observations[j].sourceCallId in ids
           <==> j < |steps[k].toolCalls| && steps[k].toolCalls[j].name == RL_TOOL
      {
        assert IsResponse(cs, k, j);
        RlIdsAre(cs, LinkedResponseId(cs[k], j));
        if AtRlCall(cs[k], j) {
          OwnResponseNamesCall(cs, k, j);
        }
      }
    }
    if IdsMeanPositions(steps, ids) {
      forall k, j, k', i | IsResponse(cs, k, j) && !AtRlCall(cs[k], j) && IsCall(cs, k', i) && AtRlCall(cs[k'], i)
        ensures LinkedResponseId(cs[k], j) != LinkedCallId(cs[k'], i)
      {
        assert steps[k].observations[j].sourceCallId !in ids;
        RlIdsAre(cs, LinkedCallId(cs[k'], i));
      }
    }
  }

  /**
   In a well-formed conversation without a stray response, the scan by id reports the reward of the last response
   that stands at the position of an rl_get_results call and holds one, and none when there is no such response. It
   fails exactly when a response at such a position holds a reward that is too large.
   */
  lemma RewardIsPositional(rt: Runtime, events: seq<Event>)
    requires WellFormed(events) && NoStray(Collect(events))
    ensures var steps := Finish(events).steps;
            && LastReward(rt, RlIds(steps), Observed(steps)) == LastRewardByPosition(rt, steps)
            && (SomeOverflow(rt, RlIds(steps), Observed(steps)) <==> exists k, i :: OverflowsAt(rt, steps, k, i))
  {
    WellFormedIsPositional(events);
    PositionsIffNoStray(Collect(events));
    OverflowsByPosition(rt, Finish(events).steps, RlIds(Finish(events).steps));
    RewardsByPosition(rt, Finish(events).steps, RlIds(Finish(events).steps));
  }

  /**
   No call id and no response id is used twice, no call is named "unknown", and a response that names a call
   stands at that call's position.
   */
  ghost predicate IdsUsedOnce(cs: seq<Collected>) {
    && (forall k, i, k', i' ::
          IsCall(cs, k, i) && IsCall(cs, k', i') && cs[k].step.toolCalls[i].id == cs[k'].step.toolCalls[i'].id ==>
            k == k' && i == i')
    && (forall k, j, k', j' ::
          IsNamed(cs, k, j) && IsNamed(cs, k', j')
          && cs[k].responses[j].sourceCallId == cs[k'].responses[j'].sourceCallId
          ==> k == k' && j == j')
    && (forall k, i :: IsCall(cs, k, i) ==> cs[k].step.toolCalls[i].id != UNKNOWN)
    && (forall k, i, k', j ::
          IsCall(cs, k, i) && IsNamed(cs, k', j) && cs[k].step.toolCalls[i].id == cs[k'].responses[j].sourceCallId ==>
            k == k' && i == j)
  }

  predicate IsNamed(cs: seq<Collected>, k: int, j: int) {
    IsResponse(cs, k, j) && cs[k].responses[j].sourceCallId != UNKNOWN
  }

  /** Ids that are used once leave no stray response. */
  lemma UsedOnceHasNoStray(cs: seq<Collected>)
    requires IdsUsedOnce(cs)
    ensures NoStray(cs)
  {
    forall k, j, k', i | IsResponse(cs, k, j) && !AtRlCall(cs[k], j) && IsCall(cs, k', i) && AtRlCall(cs[k'], i)
      ensures LinkedResponseId(cs[k], j) != LinkedCallId(cs[k'], i)
    {
      assert LinkedCallId(cs[k'], i) == if IsNamed(cs, k', i) then cs[k'].responses[i].sourceCallId
                                        else cs[k'].step.toolCalls[i].id;
      assert LinkedResponseId(cs[k], j) == if !IsNamed(cs, k, j) && IsCall(cs, k, j) then cs[k].step.toolCalls[j].id
                                           else cs[k].responses[j].sourceCallId;
    }
  }

  // ----- a stray response is taken for an answer -----

  /** Every response holds something, and no two hold the same. */
  ghost predicate ContentsDiffer(cs: seq<Collected>) {
    && (forall k, j :: IsResponse(cs, k, j) ==>
          cs[k].responses[j].content.Some? && cs[k].responses[j].content.value != "")
    && (forall k, j, k', j' ::
          IsResponse(cs, k, j) && IsResponse(cs, k', j') && cs[k].responses[j].content == cs[k'].responses[j'].content
          ==> k == k' && j == j')
  }

  /** A runtime under which only these contents hold a reward: 1 for the one, and 2 for the other. */
  function Rewarding(one: string, two: string): Runtime {
    Runtime(
      (s: string) => if s == one then Some(Obj([("reward", Num(1.0))]))
                     else if s == two then Some(Obj([("reward", Num(2.0))])) else None,
      (_: Json) => "", (_: Json) => "", (s: string) => s, (s: string) => s,
      (j: Json) => if j.Num? then Number(j.n) else NotANumber)
  }

  lemma OnlyTheseReward(one: string, two: string, o: Observation)
    requires one != "" && two != ""
    ensures RewardIn(Rewarding(one, two), o)
         == if o.content == Some(one) then Some(1.0) else if o.content == Some(two) then Some(2.0) else None
  {
  }

  lemma {:induction false} SomeReward(rt: Runtime, ids: set<string>, os: seq<Observation>, o: Observation)
    requires o in os && o.sourceCallId in ids && RewardIn(rt, o).Some?
    ensures LastReward(rt, ids, os).Some?
  {
    var n := |os| - 1;
    if o != os[n] {
      assert o in os[..n];
      SomeReward(rt, ids, os[..n], o);
    }
  }

  lemma {:induction false} ObservedMember(steps: seq<Step>, k: nat, o: Observation)
    requires k < |steps| && o in steps[k].observations
    ensures o in Observed(steps)
  {
    if k < |steps| - 1 {
      ObservedMember(steps[..|steps| - 1], k, o);
    }
  }

  lemma {:induction false} NoStepReward(rt: Runtime, step: Step, n: nat)
    requires n <= |step.observations| && forall i :: 0 <= i < n ==> !Rewards(rt, step, i)
    ensures RewardByPosition(rt, step, n) == None
  {
    if n == 0 {
    } else {
      NoStepReward(rt, step, n - 1);
    }
  }

  lemma {:induction false} NoPositionalReward(rt: Runtime, steps: seq<Step>)
    requires forall k, i :: 0 <= k < |steps| && 0 <= i < |steps[k].observations| ==> !Rewards(rt, steps[k], i)
    ensures LastRewardByPosition(rt, steps) == None
  {
    if steps == [] {
    } else {
      var n := |steps| - 1;
      NoPositionalReward(rt, steps[..n]);
      NoStepReward(rt, steps[n], |steps[n].observations|);
    }
  }

  /** When only this content holds a reward and its response stands elsewhere, there is no positional reward. */
  lemma NoPositionRewards(cs: seq<Collected>, k: int, j: int)
    requires ContentsDiffer(cs) && IsResponse(cs, k, j) && !AtRlCall(cs[k], j)
    ensures var c := cs[k].responses[j].content.value;
            LastRewardByPosition(Rewarding(c, c), AllAnswered(cs)) == None
  {
    var c, steps := cs[k].responses[j].content.value, AllAnswered(cs);
    LinkedIds(cs);
    forall k', j' | 0 <= k' < |steps| && 0 <= j' < |steps[k'].observations|
      ensures !Rewards(Rewarding(c, c), steps[k'], j')
    {
      assert IsResponse(cs, k', j');
      OnlyTheseReward(c, c, steps[k'].observations[j']);
      assert AtRlCall(cs[k'], j') <==> j' < |steps[k'].toolCalls| && steps[k'].toolCalls[j'].name == RL_TOOL;
    }
    NoPositionalReward(Rewarding(c, c), steps);
  }

  lemma StrayRewards(cs: seq<Collected>) returns (rt: Runtime)
    requires ContentsDiffer(cs) && !NoStray(cs)
    ensures var steps := AllAnswered(cs);
            LastReward(rt, RlIds(steps), Observed(steps)) != LastRewardByPosition(rt, steps)
  {
    LinkedIds(cs);
    var steps := AllAnswered(cs);
    var k, j, k', i :| IsResponse(cs, k, j) && !AtRlCall(cs[k], j) && IsCall(cs, k', i) && AtRlCall(cs[k'], i)
                       && LinkedResponseId(cs[k], j) == LinkedCallId(cs[k'], i);
    var o := steps[k].observations[j];
    rt := Rewarding(o.content.value, o.content.value);
    OnlyTheseReward(o.content.value, o.content.value, o);
    RlIdsAre(cs, o.sourceCallId);
    ObservedMember(steps, k, o);
    SomeReward(rt, RlIds(steps), Observed(steps), o);
    NoPositionRewards(cs, k, j);
  }

  /**
   When every response holds something else, the scan by id reports the positional reward, whatever the contents
   decode to, if and only if no response that stands elsewhere names an rl_get_results call.
   */
  lemma PositionalRewardIffNoStray(events: seq<Event>)
    requires WellFormed(events) && ContentsDiffer(Collect(events))
    ensures var steps := Finish(events).steps;
            (forall rt :: LastReward(rt, RlIds(steps), Observed(steps)) == LastRewardByPosition(rt, steps))
            <==> NoStray(Collect(events))
  {
    WellFormedIsPositional(events);
    if NoStray(Collect(events)) {
      forall rt ensures var steps := Finish(events).steps;
                        LastReward(rt, RlIds(steps), Observed(steps)) == LastRewardByPosition(rt, steps)
      {
        RewardIsPositional(rt, events);
      }
    } else {
      var rt := StrayRewards(Collect(events));
    }
  }

  // ----- a surplus response of another step -----

  function SurplusEvents(surplus: Observation): seq<Event> {
    [AgentTurn(None, None, [ToolCall("a", RL_TOOL, [], None)]), AgentTurn(None, None, []), ToolMessage([surplus])]
  }

  lemma SurplusCollected(surplus: Observation)
    ensures var e := SurplusEvents(surplus);
            Collect(e) == [Collected(FreshStep(e[0], 0, None), []), Collected(FreshStep(e[1], 1, None), [surplus])]
  {
    var e := SurplusEvents(surplus);
    assert e[..2] == [e[0], e[1]] && [e[0], e[1]][..1] == [e[0]] && [e[0]][..0] == [];
    assert Collect([e[0]]) == [Collected(FreshStep(e[0], 0, None), [])];
    assert Collect(e[..2]) == [Collected(FreshStep(e[0], 0, None), []), Collected(FreshStep(e[1], 1, None), [])];
    assert [] + [surplus] == [surplus];
  }

  lemma SurplusSteps(surplus: Observation)
    requires surplus.sourceCallId != UNKNOWN
    ensures WellFormed(SurplusEvents(surplus))
    ensures var steps := Finish(SurplusEvents(surplus)).steps;
            && |steps| == 2
            && steps[0].toolCalls == [ToolCall("a", RL_TOOL, [], None)] && steps[0].observations == []
            && steps[1].toolCalls == [] && steps[1].observations == [surplus]
  {
    var events := SurplusEvents(surplus);
    assert AfterAgent(events, 2) by {
      assert events[1].AgentTurn?;
    }
    WellFormedIsPositional(events);
    SurplusCollected(surplus);
  }

  /**
   A surplus response that names an unanswered call of an earlier step is taken for that call's answer, although
   every id is used for one call and one response only: position and id then disagree.
   */
  lemma SurplusResponseMayReward(rt: Runtime, surplus: Observation)
    requires surplus.sourceCallId == "a" && RewardIn(rt, surplus).Some?
    ensures var steps := Finish(SurplusEvents(surplus)).steps;
            && WellFormed(SurplusEvents(surplus))
            && LastReward(rt, RlIds(steps), Observed(steps)) == RewardIn(rt, surplus)
            && LastRewardByPosition(rt, steps) == None
  {
    SurplusSteps(surplus);
    var steps := Finish(SurplusEvents(surplus)).steps;
    assert steps[0].toolCalls[0].id in RlIds(steps);
    assert Observed(steps) == Observed(steps[..1]) + [surplus];
    assert RewardByPosition(rt, steps[1], 1) == RewardByPosition(rt, steps[1], 0) == None;
    assert steps[..1][..0] == [] && LastRewardByPosition(rt, steps[..1]) == None;
  }
}
