/** Collapsing and grouping conserve traces, and a packet's figures add up. */
module StandupGuarantees {
  import opened Wrappers
  import opened Sorting
  import opened OrderedDict
  import opened StandupModel
  import opened StandupCollapse
  import opened StandupPacket

  // ----- sums that grouping and sorting preserve -----

  function Sum<T>(f: T -> int, s: seq<T>): int {
    if s == [] then 0 else Sum(f, s[..|s| - 1]) + f(s[|s| - 1])
  }

  lemma {:induction false} SumConcat<T>(f: T -> int, s: seq<T>, t: seq<T>)
    ensures Sum(f, s + t) == Sum(f, s) + Sum(f, t)
  {
    if t == [] {
      assert s + t == s;
    } else {
      var n := |t| - 1;
      SumConcat(f, s, t[..n]);
      assert (s + t)[..|s| + n] == s + t[..n];
    }
  }

  lemma SumFirst<T>(f: T -> int, s: seq<T>)
    requires s != []
    ensures Sum(f, s) == f(s[0]) + Sum(f, s[1..])
  {
    assert s == [s[0]] + s[1..];
    SumConcat(f, [s[0]], s[1..]);
  }

  lemma {:induction false} SumOfInsert<T>(f: T -> int, le: (T, T) -> bool, x: T, s: seq<T>)
    ensures Sum(f, Insert(le, x, s)) == f(x) + Sum(f, s)
  {
    if s == [] || le(x, s[0]) {
      SumConcat(f, [x], s);
    } else {
      SumOfInsert(f, le, x, s[1..]);
      SumConcat(f, [s[0]], Insert(le, x, s[1..]));
      SumFirst(f, s);
    }
  }

  lemma {:induction false} SumOfSort<T>(f: T -> int, le: (T, T) -> bool, s: seq<T>)
    ensures Sum(f, Sort(le, s)) == Sum(f, s)
  {
    if s == [] {
    } else {
      SumOfSort(f, le, s[1..]);
      SumOfInsert(f, le, s[0], Sort(le, s[1..]));
      SumFirst(f, s);
    }
  }

  lemma {:induction false} SumPointwise<S, T>(f: S -> int, s: seq<S>, g: T -> int, t: seq<T>)
    requires |s| == |t| && forall i :: 0 <= i < |s| ==> f(s[i]) == g(t[i])
    ensures Sum(f, s) == Sum(g, t)
  {
    if s == [] {
    } else {
      SumPointwise(f, s[..|s| - 1], g, t[..|s| - 1]);
    }
  }

  /** The sum over one group. */
  function OverGroup(f: Trace -> int): ((string, seq<Trace>)) -> int {
    (g: (string, seq<Trace>)) => Sum(f, g.1)
  }

  lemma {:induction false} SumOfAddTo(f: Trace -> int, groups: Groups, key: string, t: Trace, group: seq<Trace>)
    requires group == GroupOf(groups, key)
    ensures Sum(OverGroup(f), Put(groups, key, group + [t])) == Sum(OverGroup(f), groups) + f(t)
  {
    var h := OverGroup(f);
    SumConcat(f, group, [t]);
    if groups == [] {
    } else if groups[0].0 == key {
      SumFirst(h, groups);
      SumConcat(h, [(key, group + [t])], groups[1..]);
    } else {
      SumOfAddTo(f, groups[1..], key, t, group);
      SumFirst(h, groups);
      SumConcat(h, [groups[0]], Put(groups[1..], key, group + [t]));
    }
  }

  /** Whatever is added up over the groups is added up over all traces. */
  lemma {:induction false} SumOfGroups(f: Trace -> int, key: Trace -> string, traces: seq<Trace>)
    ensures Sum(OverGroup(f), GroupBy(key, traces)) == Sum(f, traces)
  {
    if traces == [] {
    } else {
      var n := |traces| - 1;
      SumOfGroups(f, key, traces[..n]);
      var groups := GroupBy(key, traces[..n]);
      SumOfAddTo(f, groups, key(traces[n]), traces[n], GroupOf(groups, key(traces[n])));
    }
  }

  function One<T>(): T -> int {
    (_: T) => 1
  }

  lemma {:induction false} SumOfOnes<T>(s: seq<T>)
    ensures Sum(One(), s) == |s|
  {
    if s == [] {
    } else {
      SumOfOnes(s[..|s| - 1]);
    }
  }

  // ----- what the groups hold -----

  function Keyed(key: Trace -> string, traces: seq<Trace>, k: string): seq<Trace> {
    if traces == [] then [] else
      var n := |traces| - 1;
      var earlier := Keyed(key, traces[..n], k);
      if key(traces[n]) == k then earlier + [traces[n]] else earlier
  }

  /** Every group holds exactly the traces with its key, in order, and no key has two groups. */
  lemma {:induction false} GroupByFacts(key: Trace -> string, traces: seq<Trace>)
    ensures DistinctKeys(GroupBy(key, traces))
    ensures forall k :: GroupOf(GroupBy(key, traces), k) == Keyed(key, traces, k)
    ensures forall k :: Get(GroupBy(key, traces), k).Some? <==> Keyed(key, traces, k) != []
  {
    if traces == [] {
    } else {
      var n := |traces| - 1;
      GroupByFacts(key, traces[..n]);
      var groups, k0 := GroupBy(key, traces[..n]), key(traces[n]);
      PutKeepsDistinct(groups, k0, GroupOf(groups, k0) + [traces[n]]);
      forall k
        ensures GroupOf(GroupBy(key, traces), k) == Keyed(key, traces, k)
        ensures Get(GroupBy(key, traces), k).Some? <==> Keyed(key, traces, k) != []
      {
        GetAfterPut(groups, k0, GroupOf(groups, k0) + [traces[n]], k);
      }
    }
  }

  lemma GroupAt(key: Trace -> string, traces: seq<Trace>, i: nat)
    requires i < |GroupBy(key, traces)|
    ensures GroupBy(key, traces)[i].1 == Keyed(key, traces, GroupBy(key, traces)[i].0)
  {
    GroupByFacts(key, traces);
    GetAt(GroupBy(key, traces), i);
  }

  lemma {:induction false} KeyedMember(key: Trace -> string, traces: seq<Trace>, k: string, t: Trace)
    ensures t in Keyed(key, traces, k) <==> t in traces && key(t) == k
  {
    if traces == [] {
    } else {
      var n := |traces| - 1;
      KeyedMember(key, traces[..n], k, t);
      assert traces == traces[..n] + [traces[n]];
    }
  }

  lemma {:induction false} SplitMember(traces: seq<Trace>, t: Trace)
    ensures t in WithSession(traces) <==> t in traces && HasSession(t)
    ensures t in WithoutSession(traces) <==> t in traces && !HasSession(t)
  {
    if traces == [] {
    } else {
      var n := |traces| - 1;
      SplitMember(traces[..n], t);
      assert traces == traces[..n] + [traces[n]];
    }
  }

  // ----- collapsing -----

  /** The k-th representative is the best trace of its own session. */
  lemma RepresentativeAt(traces: seq<Trace>, k: nat)
    requires k < |Sessions(traces)|
    ensures NoEmptyGroup(Sessions(traces))
    ensures var rep := Best(Sessions(traces)[k].1);
            && rep in traces && HasSession(rep) && SessionOf(rep) == Sessions(traces)[k].0
            && Collapse(traces)[k] == rep
            && forall t :: t in traces && HasSession(t) && SessionOf(t) == SessionOf(rep) ==> !Below(rep, t)
  {
    var chained := WithSession(traces);
    GroupsAreNotEmpty(SessionOf, chained);
    GroupAt(SessionOf, chained, k);
    var sid := Sessions(traces)[k].0;
    var rep := Best(Sessions(traces)[k].1);
    var i := BestIsFirstMaximal(Sessions(traces)[k].1);
    assert rep in Sessions(traces)[k].1;
    forall t ensures t in Keyed(SessionOf, chained, sid) <==> t in traces && HasSession(t) && SessionOf(t) == sid {
      KeyedMember(SessionOf, chained, sid, t);
      SplitMember(traces, t);
    }
  }

  lemma RepresentativesApart(traces: seq<Trace>, i: nat, j: nat)
    requires i < j < |Sessions(traces)|
    ensures SessionOf(Collapse(traces)[i]) != SessionOf(Collapse(traces)[j])
  {
    RepresentativeAt(traces, i);
    RepresentativeAt(traces, j);
    GroupByFacts(SessionOf, WithSession(traces));
  }

  /**
   Collapsing keeps exactly one trace of every session, and none of that session's traces has a higher generation,
   or the same generation and more steps. Traces without a session all stay, in order.
   */
  lemma OneBestPerSession(traces: seq<Trace>, t: Trace)
    requires t in traces && HasSession(t)
    ensures exists k ::
              && 0 <= k < |Sessions(traces)|
              && Collapse(traces)[k] in traces && HasSession(Collapse(traces)[k])
              && SessionOf(Collapse(traces)[k]) == SessionOf(t)
              && !Below(Collapse(traces)[k], t)
              && forall j :: 0 <= j < |Sessions(traces)| && j != k ==> SessionOf(Collapse(traces)[j]) != SessionOf(t)
    ensures Collapse(traces)[|Sessions(traces)|..] == WithoutSession(traces)
  {
    var chained := WithSession(traces);
    SplitMember(traces, t);
    KeyedMember(SessionOf, chained, SessionOf(t), t);
    GroupByFacts(SessionOf, chained);
    GetFinds(Sessions(traces), SessionOf(t));
    var k :| 0 <= k < |Sessions(traces)| && Sessions(traces)[k].0 == SessionOf(t);
    RepresentativeAt(traces, k);
    forall j | 0 <= j < |Sessions(traces)| && j != k ensures SessionOf(Collapse(traces)[j]) != SessionOf(t) {
      if j < k {
        RepresentativesApart(traces, j, k);
      } else {
        RepresentativesApart(traces, k, j);
      }
    }
  }

  lemma {:induction false} SplitCounts(traces: seq<Trace>)
    ensures |WithSession(traces)| + |WithoutSession(traces)| == |traces|
  {
    if traces == [] {
    } else {
      SplitCounts(traces[..|traces| - 1]);
    }
  }

  lemma {:induction false} SurplusCounts(groups: Groups)
    requires NoEmptyGroup(groups)
    ensures Surplus(Chains(groups)) + |groups| == Sum(OverGroup(One()), groups)
  {
    if groups == [] {
    } else {
      var n := |groups| - 1;
      SurplusCounts(groups[..n]);
      SumOfOnes(groups[n].1);
      assert Chains(groups)[..n] == Chains(groups[..n]);
    }
  }

  /** Kept and collapsed traces are all traces. */
  lemma CollapseConserves(traces: seq<Trace>)
    ensures |Collapse(traces)| + Collapsed(traces) == |traces|
  {
    var chained := WithSession(traces);
    GroupsAreNotEmpty(SessionOf, chained);
    SurplusCounts(Sessions(traces));
    SumOfGroups(One(), SessionOf, chained);
    SumOfOnes(chained);
    SplitCounts(traces);
  }

  // ----- collapsing twice -----

  ghost predicate SessionsApart(reps: seq<Trace>) {
    && (forall i :: 0 <= i < |reps| ==> HasSession(reps[i]))
    && (forall i, j :: 0 <= i < j < |reps| ==> SessionOf(reps[i]) != SessionOf(reps[j]))
  }

  function Singletons(reps: seq<Trace>): (groups: Groups)
    ensures |groups| == |reps|
  {
    seq(|reps|, i requires 0 <= i < |reps| => (SessionOf(reps[i]), [reps[i]]))
  }

  lemma {:induction false} GroupsOfApart(reps: seq<Trace>)
    requires SessionsApart(reps)
    ensures GroupBy(SessionOf, reps) == Singletons(reps)
  {
    if reps == [] {
    } else {
      var n := |reps| - 1;
      GroupsOfApart(reps[..n]);
      SingletonsGrow(reps);
    }
  }

  lemma SingletonsGrow(reps: seq<Trace>)
    requires reps != [] && SessionsApart(reps)
    ensures var n := |reps| - 1;
            AddTo(Singletons(reps[..n]), SessionOf(reps[n]), reps[n]) == Singletons(reps)
  {
    var n := |reps| - 1;
    var groups, k := Singletons(reps[..n]), SessionOf(reps[n]);
    GetFinds(groups, k);
    assert forall i :: 0 <= i < n ==> groups[i].0 == SessionOf(reps[i]);
    assert GroupOf(groups, k) + [reps[n]] == [reps[n]];
    PutNew(groups, k, [reps[n]]);
  }

  lemma SplitGrows(traces: seq<Trace>, t: Trace)
    ensures WithSession(traces + [t]) == if HasSession(t) then WithSession(traces) + [t] else WithSession(traces)
    ensures WithoutSession(traces + [t])
         == if HasSession(t) then WithoutSession(traces) else WithoutSession(traces) + [t]
  {
    assert (traces + [t])[..|traces|] == traces;
  }

  lemma ConcatLast<T>(s: seq<T>, t: seq<T>)
    requires t != []
    ensures s + t == (s + t[..|t| - 1]) + [t[|t| - 1]]
  {
  }

  lemma {:induction false} AllChained(reps: seq<Trace>)
    requires forall i :: 0 <= i < |reps| ==> HasSession(reps[i])
    ensures WithSession(reps) == reps && WithoutSession(reps) == []
  {
    if reps == [] {
    } else {
      AllChained(reps[..|reps| - 1]);
    }
  }

  lemma {:induction false} SplitOfParts(reps: seq<Trace>, alone: seq<Trace>)
    requires forall i :: 0 <= i < |reps| ==> HasSession(reps[i])
    requires forall i :: 0 <= i < |alone| ==> !HasSession(alone[i])
    ensures WithSession(reps + alone) == reps && WithoutSession(reps + alone) == alone
  {
    if alone == [] {
      AllChained(reps);
      assert reps + alone == reps;
    } else {
      var n := |alone| - 1;
      SplitOfParts(reps, alone[..n]);
      ConcatLast(reps, alone);
      SplitGrows(reps + alone[..n], alone[n]);
    }
  }

  lemma {:induction false} NothingNoted<V>(note: seq<Trace> -> V, chains: seq<Chain>)
    requires forall i :: 0 <= i < |chains| ==> |chains[i].members| == 1
    ensures Surplus(chains) == 0 && Table(note, chains) == []
  {
    if chains == [] {
    } else {
      NothingNoted(note, chains[..|chains| - 1]);
    }
  }

  /** Collapsing a second time changes nothing and collapses nothing. */
  lemma CollapseIsIdempotent(traces: seq<Trace>)
    ensures Collapse(Collapse(traces)) == Collapse(traces)
    ensures Collapsed(Collapse(traces)) == 0 && CollapsedById(Collapse(traces)) == []
  {
    var reps, alone := Collapse(traces)[..|Sessions(traces)|], WithoutSession(traces);
    assert Collapse(traces) == reps + alone;
    forall i | 0 <= i < |reps| ensures HasSession(reps[i]) {
      RepresentativeAt(traces, i);
    }
    forall i, j | 0 <= i < j < |reps| ensures SessionOf(reps[i]) != SessionOf(reps[j]) {
      RepresentativesApart(traces, i, j);
    }
    forall i | 0 <= i < |alone| ensures !HasSession(alone[i]) {
      SplitMember(traces, alone[i]);
    }
    SplitOfParts(reps, alone);
    GroupsOfApart(reps);
    var chains := ChainsOf(Collapse(traces));
    assert Sessions(Collapse(traces)) == Singletons(reps);
    NothingNoted(Generations, chains);
    assert Representatives(chains) == reps;
  }

  // ----- the packet -----

  /** Adding up over the evidence of one project. */
  function OverProject(h: Evidence -> int): Project -> int {
    (p: Project) => Sum(h, p.traces)
  }

  /** Adding up over the evidence of traces. */
  function OnEvidence(h: Evidence -> int, extra: Dict<string, int>, merges: Dict<string, Merged>): Trace -> int {
    (t: Trace) => h(EvidenceOf(t, extra, merges))
  }

  lemma ProjectSum(h: Evidence -> int, name: string, group: seq<Trace>, extra: Dict<string, int>,
                   merges: Dict<string, Merged>)
    ensures Sum(h, ProjectOf(name, group, extra, merges).traces) == Sum(OnEvidence(h, extra, merges), group)
  {
    var es := AllEvidence(group, extra, merges);
    SumOfSort(h, StartsNoLater, es);
    SumPointwise(h, es, OnEvidence(h, extra, merges), group);
  }

  /** Whatever is added up over all projects of a packet is added up over the kept traces, each once. */
  lemma PacketSums(h: Evidence -> int, projectName: string -> string, traces: seq<Trace>)
    ensures Sum(OverProject(h), PacketOf(projectName, traces).projects)
         == Sum(OnEvidence(h, CollapsedById(traces), MergedById(traces)), Collapse(traces))
  {
    var extra, merges := CollapsedById(traces), MergedById(traces);
    var groups := RankedGroups(projectName, traces);
    var f := OnEvidence(h, extra, merges);
    forall i | 0 <= i < |groups| ensures OverProject(h)(Projects(groups, extra, merges)[i]) == OverGroup(f)(groups[i]) {
      ProjectSum(h, groups[i].0, groups[i].1, extra, merges);
    }
    SumPointwise(OverProject(h), Projects(groups, extra, merges), OverGroup(f), groups);
    SumOfSort(OverGroup(f), Larger, GroupBy(Naming(projectName), Collapse(traces)));
    SumOfGroups(f, Naming(projectName), Collapse(traces));
  }

  function TraceCount(): Project -> int {
    (p: Project) => p.traceCount
  }

  /** The projects' trace counts add up to the session count, and with the collapsed ones to all traces. */
  lemma PacketCountsAddUp(projectName: string -> string, traces: seq<Trace>)
    ensures var packet := PacketOf(projectName, traces);
            && Sum(TraceCount(), packet.projects) == packet.sessionCount
            && packet.sessionCount + packet.collapsedGenerations == packet.rawTraceCount
  {
    var packet := PacketOf(projectName, traces);
    PacketSums(One(), projectName, traces);
    var kept := Collapse(traces);
    var f := OnEvidence(One(), CollapsedById(traces), MergedById(traces));
    SumPointwise(f, kept, One(), kept);
    SumOfOnes(kept);
    forall i | 0 <= i < |packet.projects|
      ensures TraceCount()(packet.projects[i]) == OverProject(One())(packet.projects[i])
    {
      SumOfOnes(packet.projects[i].traces);
    }
    SumPointwise(TraceCount(), packet.projects, OverProject(One()), packet.projects);
    CollapseConserves(traces);
  }

  // ----- the evidence of a chain reaches its own representative -----

  predicate Longer(c: Chain) {
    |c.members| != 1
  }

  /** The k-th kept trace shares its id with the representative of another chain of several traces. */
  ghost predicate TakesId(traces: seq<Trace>, k: int, c: int) {
    && 0 <= k < |Collapse(traces)| && 0 <= c < |ChainsOf(traces)| && k != c
    && Longer(ChainsOf(traces)[c]) && Collapse(traces)[k].id == ChainsOf(traces)[c].rep.id
  }

  /** A table knows no other id than those of the representatives of longer chains. */
  lemma {:induction false} TableMiss<V>(note: seq<Trace> -> V, chains: seq<Chain>, id: string)
    requires forall k :: 0 <= k < |chains| && Longer(chains[k]) ==> chains[k].rep.id != id
    ensures Get(Table(note, chains), id).None?
  {
    if chains == [] {
    } else {
      var n := |chains| - 1;
      TableMiss(note, chains[..n], id);
      GetAfterPut(Table(note, chains[..n]), chains[n].rep.id, note(chains[n].members), id);
    }
  }

  /** A table knows a longer chain by an id that no later longer chain has. */
  lemma {:induction false} TableHit<V>(note: seq<Trace> -> V, chains: seq<Chain>, k: nat)
    requires k < |chains| && Longer(chains[k])
    requires forall j :: k < j < |chains| && Longer(chains[j]) ==> chains[j].rep.id != chains[k].rep.id
    ensures Get(Table(note, chains), chains[k].rep.id) == Some(note(chains[k].members))
  {
    var n := |chains| - 1;
    GetAfterPut(Table(note, chains[..n]), chains[n].rep.id, note(chains[n].members), chains[k].rep.id);
    if k < n {
      TableHit(note, chains[..n], k);
    }
  }

  /** What the tables hold for a kept trace whose id is its own, as far as longer chains go. */
  lemma OwnEntry<V>(note: seq<Trace> -> V, traces: seq<Trace>, k: nat)
    requires k < |Collapse(traces)| && forall c :: !TakesId(traces, k, c)
    ensures Get(Table(note, ChainsOf(traces)), Collapse(traces)[k].id)
         == if k < |ChainsOf(traces)| && Longer(ChainsOf(traces)[k]) then Some(note(ChainsOf(traces)[k].members))
            else None
  {
    var chains := ChainsOf(traces);
    forall c | 0 <= c < |chains| && c != k && Longer(chains[c])
      ensures chains[c].rep.id != Collapse(traces)[k].id
    {
      assert !TakesId(traces, k, c);
    }
    if k < |chains| && Longer(chains[k]) {
      TableHit(note, chains, k);
    } else {
      TableMiss(note, chains, Collapse(traces)[k].id);
    }
  }

  /**
   A kept trace whose id is not that of another longer chain's representative carries its own evidence: the union
   over its chain when that holds several traces, and what is stored with it otherwise.
   */
  lemma EvidenceOfChains(traces: seq<Trace>, k: nat)
    requires k < |Collapse(traces)| && forall c :: !TakesId(traces, k, c)
    ensures var t := Collapse(traces)[k];
            var e := EvidenceOf(t, CollapsedById(traces), MergedById(traces));
            && e.id == t.id && e.started == t.started
            && if k < |ChainsOf(traces)| && Longer(ChainsOf(traces)[k]) then
                 var chain := ChainsOf(traces)[k].members;
                 && e.collapsedGenerations == |chain| - 1
                 && e.files == MergeOf(chain).files && e.tools == MergeOf(chain).tools
                 && e.skills == MergeOf(chain).skills && e.steps == Some(MergeOf(chain).steps)
               else
                 && e.collapsedGenerations == 0
                 && e.files == SortedSet(t.files) && e.tools == TopTools(t.tools)
                 && e.skills == t.skills && e.steps == t.totalSteps
  {
    OwnEntry(Generations, traces, k);
    OwnEntry(MergeOf, traces, k);
  }

  // ----- the generations that a packet names -----

  function NamedIn(): Evidence -> int {
    (e: Evidence) => e.collapsedGenerations
  }

  function ChainSurplus(): Chain -> int {
    (c: Chain) => |c.members| - 1
  }

  lemma {:induction false} SurplusIsSum(chains: seq<Chain>)
    ensures Sum(ChainSurplus(), chains) == Surplus(chains)
  {
    if chains == [] {
    } else {
      SurplusIsSum(chains[..|chains| - 1]);
    }
  }

  /** The generations that a kept trace's evidence names. */
  function NamedGenerations(traces: seq<Trace>): Trace -> int {
    OnEvidence(NamedIn(), CollapsedById(traces), MergedById(traces))
  }

  lemma GenerationsById(traces: seq<Trace>, t: Trace)
    ensures var n: Option<int> := Get(CollapsedById(traces), t.id);
            NamedGenerations(traces)(t) == if n.Some? then n.value else 0
  {
    assert NamedGenerations(traces)(t)
        == EvidenceOf(t, CollapsedById(traces), MergedById(traces)).collapsedGenerations;
  }

  /** The generations that were collapsed into the k-th kept trace. */
  function OwnGenerations(traces: seq<Trace>, k: nat): int
    requires k < |Collapse(traces)|
  {
    if k < |ChainsOf(traces)| then |ChainsOf(traces)[k].members| - 1 else 0
  }

  /** No two chains of several traces have representatives with one id. */
  ghost predicate LongerChainsApart(chains: seq<Chain>) {
    forall i, j :: 0 <= i < j < |chains| && Longer(chains[i]) && Longer(chains[j]) ==>
      chains[i].rep.id != chains[j].rep.id
  }

  /** No kept trace has the id of another longer chain's representative. */
  ghost predicate NoneTakesId(traces: seq<Trace>) {
    forall k, c :: !TakesId(traces, k, c)
  }

  lemma ChainsHaveMembers(traces: seq<Trace>)
    ensures forall c :: 0 <= c < |ChainsOf(traces)| ==> ChainsOf(traces)[c].members != []
  {
    GroupsAreNotEmpty(SessionOf, WithSession(traces));
  }

  /** A kept trace names its own generations, or more: those of the longer chain whose id it has. */
  lemma NamedGenerationsAt(traces: seq<Trace>, k: nat)
    requires LongerChainsApart(ChainsOf(traces)) && k < |Collapse(traces)|
    ensures NamedGenerations(traces)(Collapse(traces)[k]) >= OwnGenerations(traces, k)
    ensures NamedGenerations(traces)(Collapse(traces)[k]) == OwnGenerations(traces, k)
       <==> forall c :: !TakesId(traces, k, c)
  {
    var chains, t := ChainsOf(traces), Collapse(traces)[k];
    ChainsHaveMembers(traces);
    GenerationsById(traces, t);
    if c :| TakesId(traces, k, c) {
      TableHit(Generations, chains, c);
      assert k < |chains| ==> t == chains[k].rep;
      assert OwnGenerations(traces, k) == 0;
    } else {
      OwnEntry(Generations, traces, k);
    }
  }

  /** The last chain of several traces whose representative has this id is the one that the tables know. */
  lemma KnownById(traces: seq<Trace>, t: Trace, c: nat) returns (last: nat)
    requires c < |ChainsOf(traces)| && Longer(ChainsOf(traces)[c]) && ChainsOf(traces)[c].rep.id == t.id
    ensures last < |ChainsOf(traces)| && Longer(ChainsOf(traces)[last]) && ChainsOf(traces)[last].rep.id == t.id
    ensures NamedGenerations(traces)(t) == |ChainsOf(traces)[last].members| - 1
    decreases |ChainsOf(traces)| - c
  {
    var chains := ChainsOf(traces);
    if j :| c < j < |chains| && Longer(chains[j]) && chains[j].rep.id == t.id {
      last := KnownById(traces, t, j);
    } else {
      last := c;
      TableHit(Generations, chains, c);
      GenerationsById(traces, t);
    }
  }

  /**
   For all traces: every kept trace names its own generations if and only if it stands for as many as each longer
   chain whose representative has its id.
   */
  lemma OwnGenerationsNamedIff(traces: seq<Trace>)
    ensures (forall k :: 0 <= k < |Collapse(traces)| ==>
               NamedGenerations(traces)(Collapse(traces)[k]) == OwnGenerations(traces, k))
       <==> (forall k, c :: TakesId(traces, k, c) ==> OwnGenerations(traces, k) == OwnGenerations(traces, c))
  {
    var f, kept, chains := NamedGenerations(traces), Collapse(traces), ChainsOf(traces);
    if forall k, c :: TakesId(traces, k, c) ==> OwnGenerations(traces, k) == OwnGenerations(traces, c) {
      forall k | 0 <= k < |kept| ensures f(kept[k]) == OwnGenerations(traces, k) {
        if c :| TakesId(traces, k, c) {
          var last := KnownById(traces, kept[k], c);
          assert last != k ==> TakesId(traces, k, last);
        } else {
          OwnEntry(Generations, traces, k);
          GenerationsById(traces, kept[k]);
        }
      }
    }
    if forall k :: 0 <= k < |kept| ==> f(kept[k]) == OwnGenerations(traces, k) {
      forall k, c | TakesId(traces, k, c) ensures OwnGenerations(traces, k) == OwnGenerations(traces, c) {
        GenerationsById(traces, kept[k]);
        GenerationsById(traces, kept[c]);
        assert kept[c] == chains[c].rep;
      }
    }
  }

  /** Numbers that are nowhere too small add up to the same total exactly when they agree everywhere. */
  lemma {:induction false} SumAtLeast<S, T>(f: S -> int, s: seq<S>, g: T -> int, t: seq<T>)
    requires |s| == |t| && forall i :: 0 <= i < |s| ==> f(s[i]) >= g(t[i])
    ensures Sum(f, s) >= Sum(g, t)
    ensures Sum(f, s) == Sum(g, t) <==> forall i :: 0 <= i < |s| ==> f(s[i]) == g(t[i])
  {
    if s == [] {
    } else {
      var n := |s| - 1;
      SumAtLeast(f, s[..n], g, t[..n]);
      assert forall i :: 0 <= i < n ==> s[..n][i] == s[i] && t[..n][i] == t[i];
    }
  }

  function Identity(): int -> int {
    (n: int) => n
  }

  function OwnGenerationsOfAll(traces: seq<Trace>): (ns: seq<int>)
    ensures |ns| == |Collapse(traces)|
  {
    seq(|Collapse(traces)|, k requires 0 <= k < |Collapse(traces)| => OwnGenerations(traces, k))
  }

  lemma {:induction false} SumOfZeros(ns: seq<int>)
    requires forall i :: 0 <= i < |ns| ==> ns[i] == 0
    ensures Sum(Identity(), ns) == 0
  {
    if ns == [] {
    } else {
      SumOfZeros(ns[..|ns| - 1]);
    }
  }

  lemma OwnGenerationsSum(traces: seq<Trace>)
    ensures Sum(Identity(), OwnGenerationsOfAll(traces)) == Collapsed(traces)
  {
    var ns, chains := OwnGenerationsOfAll(traces), ChainsOf(traces);
    var chained, alone := ns[..|chains|], ns[|chains|..];
    assert ns == chained + alone;
    SumConcat(Identity(), chained, alone);
    SumPointwise(Identity(), chained, ChainSurplus(), chains);
    SurplusIsSum(chains);
    SumOfZeros(alone);
  }

  /** Over the kept traces, the named generations are all collapsed ones exactly when no longer chain's id is shared. */
  lemma NamedGenerationsAddUpIff(traces: seq<Trace>)
    requires LongerChainsApart(ChainsOf(traces))
    ensures Sum(NamedGenerations(traces), Collapse(traces)) >= Collapsed(traces)
    ensures Sum(NamedGenerations(traces), Collapse(traces)) == Collapsed(traces) <==> NoneTakesId(traces)
  {
    var f, kept, ns := NamedGenerations(traces), Collapse(traces), OwnGenerationsOfAll(traces);
    forall k | 0 <= k < |kept|
      ensures f(kept[k]) >= ns[k] && (f(kept[k]) == ns[k] <==> forall c :: !TakesId(traces, k, c))
    {
      NamedGenerationsAt(traces, k);
    }
    SumAtLeast(f, kept, Identity(), ns);
    OwnGenerationsSum(traces);
    if NoneTakesId(traces) {
      assert forall k :: 0 <= k < |kept| ==> f(kept[k]) == ns[k];
    }
    if Sum(f, kept) == Collapsed(traces) {
      forall k, c ensures !TakesId(traces, k, c) {
        if 0 <= k < |kept| {
          assert f(kept[k]) == ns[k];
        }
      }
    }
  }

  /**
   When no two longer chains have representatives with one id, the collapsed generations named in the packet add up
   to its total if and only if no other kept trace has the id of a longer chain's representative. Otherwise they
   exceed it.
   */
  lemma PacketGenerationsAddUp(projectName: string -> string, traces: seq<Trace>)
    requires LongerChainsApart(ChainsOf(traces))
    ensures var packet := PacketOf(projectName, traces);
            var named := Sum(OverProject(NamedIn()), packet.projects);
            && named >= packet.collapsedGenerations
            && (named == packet.collapsedGenerations <==> NoneTakesId(traces))
  {
    PacketSums(NamedIn(), projectName, traces);
    NamedGenerationsAddUpIff(traces);
  }

  // ----- ids that are shared -----

  ghost predicate OneSession(group: seq<Trace>) {
    && group != [] && (forall i :: 0 <= i < |group| ==> HasSession(group[i]))
    && forall i :: 0 <= i < |group| ==> SessionOf(group[i]) == SessionOf(group[0])
  }

  /** Traces of a further session form a further group. */
  lemma {:induction false} GroupsOfFurther(earlier: seq<Trace>, group: seq<Trace>)
    requires OneSession(group)
    requires forall i :: 0 <= i < |earlier| ==> SessionOf(earlier[i]) != SessionOf(group[0])
    ensures GroupBy(SessionOf, earlier + group) == GroupBy(SessionOf, earlier) + [(SessionOf(group[0]), group)]
  {
    var n, k := |group| - 1, SessionOf(group[0]);
    var groups := GroupBy(SessionOf, earlier);
    ConcatLast(earlier, group);
    assert (earlier + group)[..|earlier| + n] == earlier + group[..n];
    if n == 0 {
      assert earlier + [] == earlier;
      GroupByFacts(SessionOf, earlier);
      NothingKeyed(SessionOf, earlier, k);
      PutNew(groups, k, group);
      assert [] + [group[0]] == group;
    } else {
      GroupsOfFurther(earlier, group[..n]);
      NothingKeyed(SessionOf, earlier, k);
      GroupByFacts(SessionOf, earlier);
      PutAtEnd(groups, k, group[..n], group);
      assert group[..n] + [group[n]] == group;
    }
  }

  lemma {:induction false} NothingKeyed(key: Trace -> string, traces: seq<Trace>, k: string)
    requires forall i :: 0 <= i < |traces| ==> key(traces[i]) != k
    ensures Keyed(key, traces, k) == []
  {
    if traces == [] {
    } else {
      NothingKeyed(key, traces[..|traces| - 1], k);
    }
  }

  lemma {:induction false} PutAtEnd<V>(d: Dict<string, V>, k: string, v: V, v': V)
    requires Get(d, k).None?
    ensures Get(d + [(k, v)], k) == Some(v) && Put(d + [(k, v)], k, v') == d + [(k, v')]
  {
    if d == [] {
      assert [(k, v)][1..] == [];
    } else {
      PutAtEnd(d[1..], k, v, v');
      assert (d + [(k, v)])[1..] == d[1..] + [(k, v)];
      assert d + [(k, v')] == [d[0]] + (d[1..] + [(k, v')]);
    }
  }

  lemma ChainsFrom(traces: seq<Trace>, chains: seq<Chain>)
    requires |Sessions(traces)| == |chains|
    requires forall i :: 0 <= i < |chains| ==>
               chains[i].members == Sessions(traces)[i].1 != [] && chains[i].rep == Best(chains[i].members)
    ensures ChainsOf(traces) == chains && Collapse(traces) == Representatives(chains) + WithoutSession(traces)
  {
  }

  lemma OneGroup(g: seq<Trace>)
    requires OneSession(g)
    ensures GroupBy(SessionOf, g) == [(SessionOf(g[0]), g)]
  {
    GroupsOfFurther([], g);
    assert [] + g == g;
  }

  lemma TwoGroups(g: seq<Trace>, h: seq<Trace>)
    requires OneSession(g) && OneSession(h) && SessionOf(g[0]) != SessionOf(h[0])
    ensures GroupBy(SessionOf, g + h) == [(SessionOf(g[0]), g)] + [(SessionOf(h[0]), h)]
  {
    OneGroup(g);
    forall i | 0 <= i < |g| ensures SessionOf(g[i]) != SessionOf(h[0]) {
    }
    GroupsOfFurther(g, h);
  }

  lemma TwoSessions(g: seq<Trace>, h: seq<Trace>, alone: seq<Trace>)
    requires OneSession(g) && OneSession(h) && SessionOf(g[0]) != SessionOf(h[0])
    requires forall i :: 0 <= i < |alone| ==> !HasSession(alone[i])
    ensures Sessions(g + h + alone) == [(SessionOf(g[0]), g), (SessionOf(h[0]), h)]
    ensures WithoutSession(g + h + alone) == alone
  {
    SplitOfParts(g + h, alone);
    TwoGroups(g, h);
  }

  /** Two sessions and some traces without one. */
  lemma TwoChains(g: seq<Trace>, h: seq<Trace>, alone: seq<Trace>)
    requires OneSession(g) && OneSession(h) && SessionOf(g[0]) != SessionOf(h[0])
    requires forall i :: 0 <= i < |alone| ==> !HasSession(alone[i])
    ensures ChainsOf(g + h + alone) == [Chain(Best(g), g), Chain(Best(h), h)]
    ensures Collapse(g + h + alone) == [Best(g), Best(h)] + alone
  {
    var chains := [Chain(Best(g), g), Chain(Best(h), h)];
    TwoSessions(g, h, alone);
    ChainsFrom(g + h + alone, chains);
    assert Representatives(chains) == [Best(g), Best(h)];
  }

  lemma OneSessionOnly(g: seq<Trace>, alone: seq<Trace>)
    requires OneSession(g) && forall i :: 0 <= i < |alone| ==> !HasSession(alone[i])
    ensures Sessions(g + alone) == [(SessionOf(g[0]), g)] && WithoutSession(g + alone) == alone
  {
    SplitOfParts(g, alone);
    OneGroup(g);
  }

  /** One session and some traces without one. */
  lemma OneChain(g: seq<Trace>, alone: seq<Trace>)
    requires OneSession(g) && forall i :: 0 <= i < |alone| ==> !HasSession(alone[i])
    ensures ChainsOf(g + alone) == [Chain(Best(g), g)]
    ensures Collapse(g + alone) == [Best(g)] + alone
  {
    OneSessionOnly(g, alone);
    ChainsFrom(g + alone, [Chain(Best(g), g)]);
    assert Representatives([Chain(Best(g), g)]) == [Best(g)];
  }

  lemma SumOfThree<T>(f: T -> int, x: T, y: T, z: T)
    ensures Sum(f, [x]) == f(x) && Sum(f, [x, y]) == f(x) + f(y) && Sum(f, [x, y, z]) == f(x) + f(y) + f(z)
  {
    assert [x, y, z][..2] == [x, y] && [x, y][..1] == [x] && [x][..0] == [];
  }

  lemma SurplusOfTwo(c: Chain, d: Chain)
    ensures Surplus([c]) == |c.members| - 1 && Surplus([c, d]) == |c.members| + |d.members| - 2
  {
    assert [c, d][..1] == [c] && [c][..0] == [];
  }

  /** When a trace without a session has the id of a chain's representative, the chain is counted twice. */
  lemma SharedIdCountsTwice(g: seq<Trace>, c: Trace)
    requires OneSession(g) && |g| > 1 && !HasSession(c) && Best(g).id == c.id
    ensures Collapsed(g + [c]) == |g| - 1
    ensures Sum(NamedGenerations(g + [c]), Collapse(g + [c])) == 2 * (|g| - 1)
  {
    var traces, rep := g + [c], Best(g);
    OneChain(g, [c]);
    SurplusOfTwo(Chain(rep, g), Chain(rep, g));
    TableHit(Generations, [Chain(rep, g)], 0);
    GenerationsById(traces, rep);
    GenerationsById(traces, c);
    assert [rep] + [c] == [rep, c];
    SumOfThree(NamedGenerations(traces), rep, c, c);
  }

  /** Every kept trace whose id is that of the last longer chain's representative names that chain's generations. */
  lemma NamesLastChain(g: seq<Trace>, h: seq<Trace>, alone: seq<Trace>, t: Trace)
    requires OneSession(g) && OneSession(h) && SessionOf(g[0]) != SessionOf(h[0])
    requires forall i :: 0 <= i < |alone| ==> !HasSession(alone[i])
    requires |h| > 1 && t.id == Best(h).id
    ensures NamedGenerations(g + h + alone)(t) == |h| - 1
  {
    TwoChains(g, h, alone);
    TableHit(Generations, [Chain(Best(g), g), Chain(Best(h), h)], 1);
    GenerationsById(g + h + alone, t);
  }

  /**
   Errors can cancel out: a chain of three traces, a chain of two and a trace without a session, all under one id,
   name as many generations as were collapsed, although the first chain names too few and the last trace one too many.
   */
  lemma ErrorsMayCancelOut(g: seq<Trace>, h: seq<Trace>, c: Trace)
    requires OneSession(g) && OneSession(h) && SessionOf(g[0]) != SessionOf(h[0]) && !HasSession(c)
    requires |g| == 3 && |h| == 2 && Best(g).id == Best(h).id == c.id
    ensures var traces := g + h + [c];
            && Sum(NamedGenerations(traces), Collapse(traces)) == Collapsed(traces) == 3
            && NamedGenerations(traces)(Best(g)) == 1 < |g| - 1
            && NamedGenerations(traces)(c) == 1
  {
    TwoChains(g, h, [c]);
    NamesLastChain(g, h, [c], Best(g));
    NamesLastChain(g, h, [c], Best(h));
    NamesLastChain(g, h, [c], c);
    assert [Best(g), Best(h)] + [c] == [Best(g), Best(h), c];
    SumOfThree(NamedGenerations(g + h + [c]), Best(g), Best(h), c);
    SurplusOfTwo(Chain(Best(g), g), Chain(Best(h), h));
  }

  // ----- merging a chain -----

  lemma {:induction false} AllFilesMember(group: seq<Trace>, file: string)
    ensures file in AllFiles(group) <==> exists i :: 0 <= i < |group| && file in group[i].files
  {
    if group == [] {
    } else {
      var n := |group| - 1;
      AllFilesMember(group[..n], file);
      assert forall i :: 0 <= i < n ==> group[..n][i] == group[i];
    }
  }

  lemma {:induction false} AllSkillsMember(group: seq<Trace>, skill: string)
    ensures skill in AllSkills(group) <==> exists i :: 0 <= i < |group| && skill in group[i].skills
  {
    if group == [] {
    } else {
      var n := |group| - 1;
      AllSkillsMember(group[..n], skill);
      assert forall i :: 0 <= i < n ==> group[..n][i] == group[i];
    }
  }

  /** The merged files and skills are the unions over the chain, sorted, and do not depend on its order. */
  lemma MergedUnions(group: seq<Trace>)
    ensures StrictlyAscending(MergeOf(group).files) && StrictlyAscending(MergeOf(group).skills)
    ensures forall f :: f in MergeOf(group).files <==> exists i :: 0 <= i < |group| && f in group[i].files
    ensures forall s :: s in MergeOf(group).skills <==> exists i :: 0 <= i < |group| && s in group[i].skills
  {
    SortedSetFacts(AllFiles(group));
    SortedSetFacts(AllSkills(group));
    forall f
      ensures f in MergeOf(group).files <==> exists i :: 0 <= i < |group| && f in group[i].files
      ensures f in MergeOf(group).skills <==> exists i :: 0 <= i < |group| && f in group[i].skills
    {
      AllFilesMember(group, f);
      AllSkillsMember(group, f);
    }
  }

  /** The files that the narrative script lists for a kept trace: its own. */
  function NarrativeFiles(t: Trace): seq<string> {
    SortedSet(t.files)
  }

  /**
   The narrative script lists the files of a whole chain if and only if the representative touched every file that
   some trace of the chain touched.
   */
  lemma NarrativeUnitesIff(traces: seq<Trace>, k: nat)
    requires k < |ChainsOf(traces)|
    ensures var chain := ChainsOf(traces)[k];
            (NarrativeFiles(Collapse(traces)[k]) == MergeOf(chain.members).files
             <==> forall i, f :: 0 <= i < |chain.members| && f in chain.members[i].files ==> f in chain.rep.files)
  {
    var chain := ChainsOf(traces)[k];
    var own, all := NarrativeFiles(chain.rep), MergeOf(chain.members).files;
    MergedUnions(chain.members);
    SortedSetFacts(chain.rep.files);
    ChainsHaveMembers(traces);
    var r := BestIsFirstMaximal(chain.members);
    if forall i, f :: 0 <= i < |chain.members| && f in chain.members[i].files ==> f in chain.rep.files {
      AscendingIsUnique(own, all);
    }
    if own == all {
      forall i, f | 0 <= i < |chain.members| && f in chain.members[i].files ensures f in chain.rep.files {
        assert f in all;
      }
    }
  }

  /** A file that only an earlier generation touched is missing from the narrative. */
  lemma NarrativeMissesEarlierFile(a: Trace, b: Trace, file: string)
    requires HasSession(a) && HasSession(b) && SessionOf(a) == SessionOf(b) && Generation(a) < Generation(b)
    requires file in a.files && file !in b.files
    ensures Collapse([a, b]) == [b] && ChainsOf([a, b]) == [Chain(b, [a, b])]
    ensures file !in NarrativeFiles(b) && file in MergeOf([a, b]).files
  {
    assert [a, b][..1] == [a];
    assert Best([a]) == a && Best([a, b]) == b;
    OneChain([a, b], []);
    assert [a, b] + [] == [a, b] && [b] + [] == [b];
    SortedSetFacts(b.files);
    MergedUnions([a, b]);
    assert file in [a, b][0].files;
  }

  /** The merged duration is the longest of the chain, and absent when no trace has a positive one. */
  lemma MergedDuration(group: seq<Trace>)
    ensures var d := MergeOf(group).seconds;
            && (d.Some? ==> d.value > 0.0 && exists i :: 0 <= i < |group| && group[i].seconds == d)
            && forall i :: 0 <= i < |group| && group[i].seconds.Some? ==>
                 group[i].seconds.value <= if d.Some? then d.value else 0.0
  {
    LongestIs(group);
  }

  lemma {:induction false} LongestIs(group: seq<Trace>)
    ensures Longest(group) >= 0.0
    ensures forall i :: 0 <= i < |group| && group[i].seconds.Some? ==> group[i].seconds.value <= Longest(group)
    ensures Longest(group) == 0.0 || exists i :: 0 <= i < |group| && group[i].seconds == Some(Longest(group))
  {
    if group == [] {
    } else {
      var n := |group| - 1;
      LongestIs(group[..n]);
      assert forall i :: 0 <= i < n ==> group[..n][i] == group[i];
      if Longest(group) == Longest(group[..n]) != 0.0 {
        var i :| 0 <= i < n && group[..n][i].seconds == Some(Longest(group));
        assert group[i].seconds == Some(Longest(group));
      }
    }
  }

  /** The order of the resumed traces does not matter for the merged files, skills and steps. */
  lemma MergeIgnoresOrder(group: seq<Trace>, reordered: seq<Trace>)
    requires multiset(group) == multiset(reordered)
    ensures MergeOf(group).files == MergeOf(reordered).files
    ensures MergeOf(group).skills == MergeOf(reordered).skills
    ensures MergeOf(group).steps == MergeOf(reordered).steps
  {
    MergedUnions(group);
    MergedUnions(reordered);
    forall x
      ensures x in MergeOf(group).files <==> x in MergeOf(reordered).files
      ensures x in MergeOf(group).skills <==> x in MergeOf(reordered).skills
    {
      EvidenceMoves(group, reordered, x);
      EvidenceMoves(reordered, group, x);
    }
    AscendingIsUnique(MergeOf(group).files, MergeOf(reordered).files);
    AscendingIsUnique(MergeOf(group).skills, MergeOf(reordered).skills);
    StepsMove(group, reordered);
    StepsMove(reordered, group);
  }

  lemma EvidenceMoves(group: seq<Trace>, reordered: seq<Trace>, x: string)
    requires multiset(group) == multiset(reordered)
    ensures x in MergeOf(group).files ==> x in MergeOf(reordered).files
    ensures x in MergeOf(group).skills ==> x in MergeOf(reordered).skills
  {
    MergedUnions(group);
    MergedUnions(reordered);
    if i :| 0 <= i < |group| && x in group[i].files {
      assert group[i] in multiset(reordered);
    }
    if i :| 0 <= i < |group| && x in group[i].skills {
      assert group[i] in multiset(reordered);
    }
  }

  lemma StepsMove(group: seq<Trace>, reordered: seq<Trace>)
    requires multiset(group) == multiset(reordered)
    ensures MaxSteps(group) <= MaxSteps(reordered)
  {
    MergedSteps(group);
    MergedSteps(reordered);
    if i :| 0 <= i < |group| && Steps(group[i]) == MaxSteps(group) {
      assert group[i] in multiset(reordered);
    }
  }

  /** The merged step count is the highest of the chain, and at least 0. */
  lemma {:induction false} MergedSteps(group: seq<Trace>)
    ensures MaxSteps(group) >= 0
    ensures forall i :: 0 <= i < |group| ==> Steps(group[i]) <= MaxSteps(group)
    ensures MaxSteps(group) == 0 || exists i :: 0 <= i < |group| && Steps(group[i]) == MaxSteps(group)
  {
    if group == [] {
    } else {
      var n := |group| - 1;
      MergedSteps(group[..n]);
      assert forall i :: 0 <= i < n ==> group[..n][i] == group[i];
      if MaxSteps(group) == MaxSteps(group[..n]) && MaxSteps(group) != 0 {
        var i :| 0 <= i < n && Steps(group[..n][i]) == MaxSteps(group);
        assert Steps(group[i]) == MaxSteps(group);
      }
    }
  }

  lemma {:induction false} RaisedTools(tools: Dict<string, int>, used: Dict<string, int>, tool: string)
    ensures CountOf(RaiseTools(tools, used), tool) >= CountOf(tools, tool)
    ensures forall i :: 0 <= i < |used| && used[i].0 == tool ==> CountOf(RaiseTools(tools, used), tool) >= used[i].1
    ensures || CountOf(RaiseTools(tools, used), tool) == CountOf(tools, tool)
            || exists i :: 0 <= i < |used| && used[i] == (tool, CountOf(RaiseTools(tools, used), tool))
  {
    if used == [] {
    } else {
      var n := |used| - 1;
      RaisedTools(tools, used[..n], tool);
      var raised, k := RaiseTools(tools, used[..n]), used[n].0;
      GetAfterPut(raised, k, Max(CountOf(raised, k), used[n].1), tool);
      assert forall i :: 0 <= i < n ==> used[..n][i] == used[i];
      if i :| 0 <= i < n && used[..n][i] == (tool, CountOf(RaiseTools(tools, used), tool)) {
        assert used[i] == (tool, CountOf(RaiseTools(tools, used), tool));
      }
    }
  }

  /** Before the cut to six, a tool's merged count is its highest count in the chain, and at least 0. */
  lemma {:induction false} MergedToolCounts(group: seq<Trace>, tool: string)
    ensures CountOf(MergeTools(group), tool) >= 0
    ensures forall i, j :: 0 <= i < |group| && 0 <= j < |group[i].tools| && group[i].tools[j].0 == tool ==>
              group[i].tools[j].1 <= CountOf(MergeTools(group), tool)
    ensures || CountOf(MergeTools(group), tool) == 0
            || exists i, j :: 0 <= i < |group| && 0 <= j < |group[i].tools|
                              && group[i].tools[j] == (tool, CountOf(MergeTools(group), tool))
  {
    if group == [] {
    } else {
      var n := |group| - 1;
      var earlier := group[..n];
      MergedToolCounts(earlier, tool);
      RaisedTools(MergeTools(earlier), group[n].tools, tool);
      assert forall i :: 0 <= i < n ==> earlier[i] == group[i];
    }
  }

  /** The cut keeps a most used selection: no dropped tool is used more than a kept one. */
  lemma TopToolsAreTop(tools: Dict<string, int>) returns (dropped: Dict<string, int>)
    ensures multiset(TopTools(tools) + dropped) == multiset(tools)
    ensures |TopTools(tools)| <= TOP_TOOLS && (dropped != [] ==> |TopTools(tools)| == TOP_TOOLS)
    ensures forall i, j :: 0 <= i < |TopTools(tools)| && 0 <= j < |dropped| ==> TopTools(tools)[i].1 >= dropped[j].1
  {
    var ranked := Sort(MoreUsed, tools);
    SortSorts(MoreUsed, tools);
    var cut := |TopTools(tools)|;
    dropped := ranked[cut..];
    assert TopTools(tools) + dropped == ranked;
    forall i, j | 0 <= i < cut && 0 <= j < |dropped| ensures TopTools(tools)[i].1 >= dropped[j].1 {
      assert MoreUsed(ranked[i], ranked[cut + j]);
    }
  }
}
