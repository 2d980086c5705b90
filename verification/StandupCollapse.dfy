/** Resume chains in the standup example: both scripts keep one trace per session. */
module StandupCollapse {
  import opened Wrappers
  import opened OrderedDict
  import opened StandupModel

  // ----- grouping -----

  type Groups = Dict<string, seq<Trace>>

  function GroupOf(groups: Groups, key: string): seq<Trace> {
    var g: Option<seq<Trace>> := Get(groups, key);
    if g.Some? then g.value else []
  }

  /** `groups.setdefault(key, []).append(t)`. */
  function AddTo(groups: Groups, key: string, t: Trace): Groups {
    Put(groups, key, GroupOf(groups, key) + [t])
  }

  function GroupBy(key: Trace -> string, traces: seq<Trace>): Groups {
    if traces == [] then [] else
      var n := |traces| - 1;
      AddTo(GroupBy(key, traces[..n]), key(traces[n]), traces[n])
  }

  function WithSession(traces: seq<Trace>): seq<Trace> {
    if traces == [] then [] else
      var n := |traces| - 1;
      var earlier := WithSession(traces[..n]);
      if HasSession(traces[n]) then earlier + [traces[n]] else earlier
  }

  function WithoutSession(traces: seq<Trace>): seq<Trace> {
    if traces == [] then [] else
      var n := |traces| - 1;
      var earlier := WithoutSession(traces[..n]);
      if HasSession(traces[n]) then earlier else earlier + [traces[n]]
  }

  function Sessions(traces: seq<Trace>): Groups {
    GroupBy(SessionOf, WithSession(traces))
  }

  // ----- collapsing -----

  ghost predicate NoEmptyGroup(groups: Groups) {
    forall i :: 0 <= i < |groups| ==> groups[i].1 != []
  }

  /** A session's traces, with the one that stands for them. */
  datatype Chain = Chain(rep: Trace, members: seq<Trace>)

  function Chains(groups: Groups): (chains: seq<Chain>)
    requires NoEmptyGroup(groups)
    ensures |chains| == |groups|
    ensures forall i :: 0 <= i < |groups| ==> chains[i] == Chain(Best(groups[i].1), groups[i].1)
  {
    seq(|groups|, i requires 0 <= i < |groups| => Chain(Best(groups[i].1), groups[i].1))
  }

  function Representatives(chains: seq<Chain>): (reps: seq<Trace>)
    ensures |reps| == |chains|
    ensures forall i :: 0 <= i < |chains| ==> reps[i] == chains[i].rep
  {
    seq(|chains|, i requires 0 <= i < |chains| => chains[i].rep)
  }

  function Surplus(chains: seq<Chain>): int {
    if chains == [] then 0 else
      var n := |chains| - 1;
      Surplus(chains[..n]) + |chains[n].members| - 1
  }

  /** What is noted for each chain of several traces, by the trace id of its representative. */
  function Table<V>(note: seq<Trace> -> V, chains: seq<Chain>): Dict<string, V> {
    if chains == [] then [] else
      var n := |chains| - 1;
      var earlier := Table(note, chains[..n]);
      var c := chains[n];
      if |c.members| == 1 then earlier else Put(earlier, c.rep.id, note(c.members))
  }

  function Generations(members: seq<Trace>): int {
    |members| - 1
  }

  lemma {:induction false} GroupsAreNotEmpty(key: Trace -> string, traces: seq<Trace>)
    ensures NoEmptyGroup(GroupBy(key, traces))
  {
    if traces == [] {
    } else {
      var n := |traces| - 1;
      GroupsAreNotEmpty(key, traces[..n]);
      PutKeepsNonEmpty(GroupBy(key, traces[..n]), key(traces[n]), traces[n]);
    }
  }

  lemma PutKeepsNonEmpty(groups: Groups, key: string, t: Trace)
    requires NoEmptyGroup(groups)
    ensures NoEmptyGroup(AddTo(groups, key, t))
  {
    PutAt(groups, key, GroupOf(groups, key) + [t]);
  }

  function ChainsOf(traces: seq<Trace>): seq<Chain> {
    GroupsAreNotEmpty(SessionOf, WithSession(traces));
    Chains(Sessions(traces))
  }

  /** What collapsing keeps: one trace per session, then the traces without a session. */
  function Collapse(traces: seq<Trace>): seq<Trace> {
    Representatives(ChainsOf(traces)) + WithoutSession(traces)
  }

  function Collapsed(traces: seq<Trace>): int {
    Surplus(ChainsOf(traces))
  }

  /** How many generations each representative of a longer chain stands for, besides itself. */
  function CollapsedById(traces: seq<Trace>): Dict<string, int> {
    Table(Generations, ChainsOf(traces))
  }

  /** The merged evidence of each longer chain. */
  function MergedById(traces: seq<Trace>): Dict<string, Merged> {
    Table(MergeOf, ChainsOf(traces))
  }

  lemma SessionsGrow(traces: seq<Trace>, t: Trace)
    ensures Sessions(traces + [t])
         == if HasSession(t) then AddTo(Sessions(traces), SessionOf(t), t) else Sessions(traces)
    ensures WithoutSession(traces + [t])
         == if HasSession(t) then WithoutSession(traces) else WithoutSession(traces) + [t]
  {
    assert (traces + [t])[..|traces|] == traces;
    var w := WithSession(traces);
    assert (w + [t])[..|w|] == w;
  }

  /** What the loops over the sessions have collected. */
  datatype Picks =
    Picks(reps: seq<Trace>, collapsed: int, collapsedById: Dict<string, int>, mergedById: Dict<string, Merged>)

  function PicksOf(chains: seq<Chain>): Picks {
    Picks(Representatives(chains), Surplus(chains), Table(Generations, chains), Table(MergeOf, chains))
  }

  function PickMore(p: Picks, c: Chain): Picks {
    Picks(p.reps + [c.rep], p.collapsed + |c.members| - 1,
          if |c.members| == 1 then p.collapsedById else Put(p.collapsedById, c.rep.id, Generations(c.members)),
          if |c.members| == 1 then p.mergedById else Put(p.mergedById, c.rep.id, MergeOf(c.members)))
  }

  lemma PicksGrow(chains: seq<Chain>, i: nat)
    requires i < |chains|
    ensures PicksOf(chains[..i + 1]) == PickMore(PicksOf(chains[..i]), chains[i])
  {
    assert chains[..i + 1][..i] == chains[..i];
    assert Representatives(chains[..i + 1]) == Representatives(chains[..i]) + [chains[i].rep];
  }

  method SplitSessions(traces: seq<Trace>) returns (bySession: Groups, standalone: seq<Trace>)
    ensures bySession == Sessions(traces) && standalone == WithoutSession(traces)
    ensures NoEmptyGroup(bySession)
  {
    bySession, standalone := [], [];
    for i := 0 to |traces|
      invariant bySession == Sessions(traces[..i]) && standalone == WithoutSession(traces[..i])
    {
      var t := traces[i];
      SessionsGrow(traces[..i], t);
      assert traces[..i + 1] == traces[..i] + [t];
      if HasSession(t) {
        bySession := AddTo(bySession, SessionOf(t), t);
      } else {
        standalone := standalone + [t];
      }
    }
    assert traces[..|traces|] == traces;
    GroupsAreNotEmpty(SessionOf, WithSession(traces));
  }

  /** A chain of several traces is noted in both tables under its representative. */
  method EnterChain(group: seq<Trace>, rep: Trace, before: Picks) returns (after: Picks)
    requires |group| != 1
    ensures after == PickMore(before, Chain(rep, group))
  {
    var merged := MergeChain(group);
    after := Picks(before.reps + [rep], before.collapsed + |group| - 1,
                   Put(before.collapsedById, rep.id, |group| - 1), Put(before.mergedById, rep.id, merged));
  }

  /** The body of the packet builder's loop over the sessions. */
  method PickOne(group: seq<Trace>, before: Picks) returns (after: Picks)
    requires group != []
    ensures after == PickMore(before, Chain(Best(group), group))
  {
    if |group| == 1 {
      after := before.(reps := before.reps + [group[0]]);
    } else {
      after := EnterChain(group, Best(group), before);
    }
  }

  /** The packet builder's collapse. */
  method CollapseSupersessions(traces: seq<Trace>)
    returns (kept: seq<Trace>, collapsed: int, collapsedById: Dict<string, int>, mergedById: Dict<string, Merged>)
    ensures kept == Collapse(traces) && collapsed == Collapsed(traces)
    ensures collapsedById == CollapsedById(traces) && mergedById == MergedById(traces)
  {
    var bySession, standalone := SplitSessions(traces);
    ghost var chains := ChainsOf(traces);
    var picks := Picks([], 0, [], []);
    for i := 0 to |bySession|
      invariant picks == PicksOf(chains[..i])
    {
      PicksGrow(chains, i);
      picks := PickOne(bySession[i].1, picks);
    }
    assert chains[..|bySession|] == chains;
    return picks.reps + standalone, picks.collapsed, picks.collapsedById, picks.mergedById;
  }

  /** The narrative script's own split: one conditional append per trace. */
  method NarrativeSplit(traces: seq<Trace>) returns (bySession: Groups, standalone: seq<Trace>)
    ensures bySession == Sessions(traces) && standalone == WithoutSession(traces)
    ensures NoEmptyGroup(bySession)
  {
    bySession, standalone := [], [];
    for i := 0 to |traces|
      invariant bySession == Sessions(traces[..i]) && standalone == WithoutSession(traces[..i])
    {
      var t := traces[i];
      SessionsGrow(traces[..i], t);
      assert traces[..i + 1] == traces[..i] + [t];
      bySession := if HasSession(t) then AddTo(bySession, SessionOf(t), t) else bySession;
      standalone := if HasSession(t) then standalone else standalone + [t];
    }
    assert traces[..|traces|] == traces;
    GroupsAreNotEmpty(SessionOf, WithSession(traces));
  }

  /** The body of the narrative script's loop over the sessions. */
  method NarrativePickOne(group: seq<Trace>, reps: seq<Trace>, extra: Dict<string, int>)
    returns (reps': seq<Trace>, extra': Dict<string, int>)
    requires group != []
    ensures reps' == reps + [Best(group)]
    ensures extra' == if |group| == 1 then extra else Put(extra, Best(group).id, Generations(group))
  {
    if |group| == 1 {
      return reps + [group[0]], extra;
    }
    var rep := Best(group);
    return reps + [rep], Put(extra, rep.id, |group| - 1);
  }

  /** The narrative script's own implementation of the collapse: the same traces, the same counts. */
  method NarrativeCollapse(traces: seq<Trace>) returns (kept: seq<Trace>, extra: Dict<string, int>)
    ensures kept == Collapse(traces) && extra == CollapsedById(traces)
  {
    var bySession, standalone := NarrativeSplit(traces);
    ghost var chains := ChainsOf(traces);
    kept, extra := [], [];
    for k := 0 to |bySession|
      invariant kept == PicksOf(chains[..k]).reps && extra == PicksOf(chains[..k]).collapsedById
    {
      PicksGrow(chains, k);
      kept, extra := NarrativePickOne(bySession[k].1, kept, extra);
    }
    assert chains[..|bySession|] == chains;
    kept := kept + standalone;
  }
}
