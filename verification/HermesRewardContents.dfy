/** When the scan by id reports the positional reward, also where responses repeat each other's contents. */
module HermesRewardContents {
  import opened Wrappers
  import opened HermesModel
  import opened HermesLinking
  import opened HermesReward

  /** The observation as far as its content goes; a blank one has none. */
  function Held(o: Observation): seq<string> {
    if o.content.Some? && o.content.value != "" then [o.content.value] else []
  }

  /** The contents that the scan by id looks into, in order. */
  function ScannedContents(ids: set<string>, os: seq<Observation>): seq<string> {
    if os == [] then [] else
      var n := |os| - 1;
      ScannedContents(ids, os[..n]) + if os[n].sourceCallId in ids then Held(os[n]) else []
  }

  /** The contents of the first n observations that stand at the position of an rl_get_results call. */
  function StepContents(step: Step, n: nat): seq<string>
    requires n <= |step.observations|
  {
    if n == 0 then [] else
      StepContents(step, n - 1)
      + if n <= |step.toolCalls| && step.toolCalls[n - 1].name == RL_TOOL then Held(step.observations[n - 1]) else []
  }

  function PositionedContents(steps: seq<Step>): seq<string> {
    if steps == [] then [] else
      var last := steps[|steps| - 1];
      PositionedContents(steps[..|steps| - 1]) + StepContents(last, |last.observations|)
  }

  function Without(cs: seq<string>, c: string): seq<string> {
    if cs == [] then [] else
      var n := |cs| - 1;
      Without(cs[..n], c) + if cs[n] == c then [] else [cs[n]]
  }

  /** Every content once, in the order of their last occurrences. */
  function Latest(cs: seq<string>): seq<string> {
    if cs == [] then [] else
      var n := |cs| - 1;
      Without(Latest(cs[..n]), cs[n]) + [cs[n]]
  }

  function Told(rt: Runtime, c: string): Option<real> {
    RewardIn(rt, Observation("", Some(c), None, None))
  }

  function LastTold(rt: Runtime, cs: seq<string>): Option<real> {
    if cs == [] then None else
      var n := |cs| - 1;
      if Told(rt, cs[n]).Some? then Told(rt, cs[n]) else LastTold(rt, cs[..n])
  }

  lemma ToldLast(rt: Runtime, cs: seq<string>, c: string)
    ensures LastTold(rt, cs + [c]) == if Told(rt, c).Some? then Told(rt, c) else LastTold(rt, cs)
  {
    assert (cs + [c])[..|cs|] == cs;
  }

  lemma ToldHeld(rt: Runtime, cs: seq<string>, o: Observation)
    ensures LastTold(rt, cs + Held(o)) == if RewardIn(rt, o).Some? then RewardIn(rt, o) else LastTold(rt, cs)
  {
    if Held(o) == [] {
      assert cs + [] == cs;
    } else {
      ToldLast(rt, cs, o.content.value);
      assert Told(rt, o.content.value) == RewardIn(rt, o);
    }
  }

  lemma {:induction false} ToldConcat(rt: Runtime, s: seq<string>, t: seq<string>)
    ensures LastTold(rt, s + t) == if LastTold(rt, t).Some? then LastTold(rt, t) else LastTold(rt, s)
  {
    if t == [] {
      assert s + t == s;
    } else {
      var n := |t| - 1;
      ToldConcat(rt, s, t[..n]);
      ToldLast(rt, s + t[..n], t[n]);
      assert s + t == (s + t[..n]) + [t[n]];
    }
  }

  lemma {:induction false} ScanTells(rt: Runtime, ids: set<string>, os: seq<Observation>)
    ensures LastReward(rt, ids, os) == LastTold(rt, ScannedContents(ids, os))
  {
    if os == [] {
    } else {
      var n := |os| - 1;
      ScanTells(rt, ids, os[..n]);
      ToldHeld(rt, ScannedContents(ids, os[..n]), os[n]);
      assert ScannedContents(ids, os[..n]) + [] == ScannedContents(ids, os[..n]);
    }
  }

  lemma {:induction false} StepTells(rt: Runtime, step: Step, n: nat)
    requires n <= |step.observations|
    ensures RewardByPosition(rt, step, n) == LastTold(rt, StepContents(step, n))
  {
    if n == 0 {
    } else {
      StepTells(rt, step, n - 1);
      ToldHeld(rt, StepContents(step, n - 1), step.observations[n - 1]);
      assert StepContents(step, n - 1) + [] == StepContents(step, n - 1);
    }
  }

  lemma {:induction false} PositionsTell(rt: Runtime, steps: seq<Step>)
    ensures LastRewardByPosition(rt, steps) == LastTold(rt, PositionedContents(steps))
  {
    if steps == [] {
    } else {
      var n := |steps| - 1;
      PositionsTell(rt, steps[..n]);
      StepTells(rt, steps[n], |steps[n].observations|);
      ToldConcat(rt, PositionedContents(steps[..n]), StepContents(steps[n], |steps[n].observations|));
    }
  }

  lemma {:induction false} WithoutTells(rt: Runtime, cs: seq<string>, c: string)
    ensures Told(rt, c).None? ==> LastTold(rt, Without(cs, c)) == LastTold(rt, cs)
    ensures forall x :: x in Without(cs, c) <==> x in cs && x != c
  {
    if cs == [] {
    } else {
      var n := |cs| - 1;
      WithoutTells(rt, cs[..n], c);
      assert cs == cs[..n] + [cs[n]];
      if cs[n] == c {
        assert Without(cs, c) == Without(cs[..n], c);
      } else {
        ToldLast(rt, Without(cs[..n], c), cs[n]);
      }
    }
  }

  /** Earlier occurrences of a content do not matter. */
  lemma {:induction false} LatestTells(rt: Runtime, cs: seq<string>)
    ensures LastTold(rt, Latest(cs)) == LastTold(rt, cs)
    ensures forall x :: x in Latest(cs) <==> x in cs
  {
    if cs == [] {
    } else {
      var n := |cs| - 1;
      LatestTells(rt, cs[..n]);
      WithoutTells(rt, Latest(cs[..n]), cs[n]);
      ToldLast(rt, Without(Latest(cs[..n]), cs[n]), cs[n]);
      assert cs == cs[..n] + [cs[n]];
    }
  }

  ghost predicate Once(cs: seq<string>) {
    forall i, j :: 0 <= i < j < |cs| ==> cs[i] != cs[j]
  }

  lemma OnceMore(cs: seq<string>, c: string)
    requires Once(cs) && c !in cs
    ensures Once(cs + [c])
  {
  }

  lemma {:induction false} WithoutIsOnce(cs: seq<string>, c: string)
    requires Once(cs)
    ensures Once(Without(cs, c))
    ensures forall x :: x in Without(cs, c) <==> x in cs && x != c
  {
    if cs == [] {
    } else {
      var n := |cs| - 1;
      WithoutIsOnce(cs[..n], c);
      assert cs == cs[..n] + [cs[n]];
      if cs[n] == c {
        assert Without(cs, c) == Without(cs[..n], c);
      } else {
        OnceMore(Without(cs[..n], c), cs[n]);
      }
    }
  }

  lemma {:induction false} LatestIsOnce(cs: seq<string>)
    ensures Once(Latest(cs))
  {
    if cs == [] {
    } else {
      var n := |cs| - 1;
      LatestIsOnce(cs[..n]);
      WithoutIsOnce(Latest(cs[..n]), cs[n]);
      OnceMore(Without(Latest(cs[..n]), cs[n]), cs[n]);
    }
  }

  ghost predicate NoneBlank(cs: seq<string>) {
    forall i :: 0 <= i < |cs| ==> cs[i] != ""
  }

  lemma RewardingTells(one: string, two: string, c: string)
    requires one != "" && two != ""
    ensures Told(Rewarding(one, two), c) == if c == one then Some(1.0) else if c == two then Some(2.0) else None
  {
    OnlyTheseReward(one, two, Observation("", Some(c), None, None));
  }

  /** Lists that end differently are told apart by their last contents alone. */
  lemma EndsToldApart(s: seq<string>, t: seq<string>) returns (rt: Runtime)
    requires NoneBlank(s) && NoneBlank(t) && s + t != []
    requires s != [] && t != [] ==> s[|s| - 1] != t[|t| - 1]
    ensures LastTold(rt, s) != LastTold(rt, t)
    ensures forall c :: Told(rt, c).Some? ==> c in s || c in t
  {
    var one := if s != [] then s[|s| - 1] else t[|t| - 1];
    var two := if t != [] then t[|t| - 1] else one;
    rt := Rewarding(one, two);
    forall c ensures Told(rt, c) == if c == one then Some(1.0) else if c == two then Some(2.0) else None {
      RewardingTells(one, two, c);
    }
  }

  /** Lists with the same end are told apart by what comes before it, when that end gives no reward. */
  lemma SameEndToldApart(rt: Runtime, s: seq<string>, t: seq<string>, c: string)
    requires LastTold(rt, s) != LastTold(rt, t) && Told(rt, c).None?
    ensures LastTold(rt, s + [c]) != LastTold(rt, t + [c])
  {
    ToldLast(rt, s, c);
    ToldLast(rt, t, c);
  }

  /** Two different lists without repetitions can be told apart by their last reward. */
  lemma {:induction false} ToldApart(s: seq<string>, t: seq<string>) returns (rt: Runtime)
    requires Once(s) && Once(t) && NoneBlank(s) && NoneBlank(t) && s != t
    ensures LastTold(rt, s) != LastTold(rt, t)
    ensures forall c :: Told(rt, c).Some? ==> c in s || c in t
  {
    if s != [] && t != [] && s[|s| - 1] == t[|t| - 1] {
      var s', t', c := s[..|s| - 1], t[..|t| - 1], s[|s| - 1];
      assert s == s' + [c] && t == t' + [c];
      rt := ToldApart(s', t');
      assert c !in s' && c !in t';
      SameEndToldApart(rt, s', t', c);
    } else {
      rt := EndsToldApart(s, t);
    }
  }

  lemma {:induction false} ScannedNotBlank(ids: set<string>, os: seq<Observation>)
    ensures NoneBlank(ScannedContents(ids, os))
  {
    if os == [] {
    } else {
      ScannedNotBlank(ids, os[..|os| - 1]);
    }
  }

  lemma {:induction false} StepNotBlank(step: Step, n: nat)
    requires n <= |step.observations|
    ensures NoneBlank(StepContents(step, n))
  {
    if n == 0 {
    } else {
      StepNotBlank(step, n - 1);
    }
  }

  lemma {:induction false} PositionedNotBlank(steps: seq<Step>)
    ensures NoneBlank(PositionedContents(steps))
  {
    if steps == [] {
    } else {
      PositionedNotBlank(steps[..|steps| - 1]);
      StepNotBlank(steps[|steps| - 1], |steps[|steps| - 1].observations|);
    }
  }

  lemma LatestNotBlank(cs: seq<string>)
    requires NoneBlank(cs)
    ensures NoneBlank(Latest(cs))
  {
    LatestTells(Rewarding("x", "x"), cs);
    forall i | 0 <= i < |Latest(cs)| ensures Latest(cs)[i] != "" {
      assert Latest(cs)[i] in cs;
    }
  }

  /**
   In every list of steps: whatever the contents decode to, the scan by id reports the positional reward if and only
   if the contents it looks into and those at rl_get_results positions are the same, in the order of their last
   occurrences.
   */
  lemma ScanIsPositionalIff(steps: seq<Step>)
    ensures (forall rt :: LastReward(rt, RlIds(steps), Observed(steps)) == LastRewardByPosition(rt, steps))
       <==> Latest(ScannedContents(RlIds(steps), Observed(steps))) == Latest(PositionedContents(steps))
  {
    var s, t := ScannedContents(RlIds(steps), Observed(steps)), PositionedContents(steps);
    forall rt
      ensures LastReward(rt, RlIds(steps), Observed(steps)) == LastTold(rt, Latest(s))
      ensures LastRewardByPosition(rt, steps) == LastTold(rt, Latest(t))
    {
      ScanTells(rt, RlIds(steps), Observed(steps));
      PositionsTell(rt, steps);
      LatestTells(rt, s);
      LatestTells(rt, t);
    }
    if Latest(s) != Latest(t) {
      ScannedNotBlank(RlIds(steps), Observed(steps));
      PositionedNotBlank(steps);
      LatestNotBlank(s);
      LatestNotBlank(t);
      LatestIsOnce(s);
      LatestIsOnce(t);
      var rt := ToldApart(Latest(s), Latest(t));
      assert LastReward(rt, RlIds(steps), Observed(steps)) != LastRewardByPosition(rt, steps);
    }
  }
}
