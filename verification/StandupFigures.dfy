/** The figures of a standup packet, read off the traces that are kept. */
module StandupFigures {
  import opened Wrappers
  import opened Sorting
  import opened OrderedDict
  import opened StandupModel
  import opened StandupCollapse
  import opened StandupPacket
  import opened StandupGuarantees

  // ----- a trace's own figures -----

  /** Generations, and then steps, decide which trace stands for a chain; what is missing counts as 0. */
  lemma BelowIs(s: Trace, t: Trace)
    ensures var g, h := if s.generation == None then 0 else s.generation.value,
                        if t.generation == None then 0 else t.generation.value;
            var m, n := if s.totalSteps == None then 0 else s.totalSteps.value,
                        if t.totalSteps == None then 0 else t.totalSteps.value;
            Below(s, t) <==> g < h || (g == h && m < n)
  {
  }

  /** A trace belongs to a chain unless its session id is missing or empty. */
  lemma SessionIs(t: Trace)
    ensures HasSession(t) <==> t.session !in {None, Some("")}
    ensures HasSession(t) ==> t.session == Some(SessionOf(t))
  {
    assert t.session.Some? && t.session.value == "" ==> t.session == Some("");
  }

  // ----- the order of sorted lists -----

  lemma ByStartIsPreorder()
    ensures TotalPreorder(StartsNoLater)
  {
    StringOrderIsTotal();
    forall a, b ensures StartsNoLater(a, b) || StartsNoLater(b, a) {
      StringLeTotal(Start(a), Start(b));
    }
    forall a, b, c | StartsNoLater(a, b) && StartsNoLater(b, c) ensures StartsNoLater(a, c) {
      StringLeTransitive(Start(a), Start(b), Start(c));
    }
  }

  /** The start of a trace; a missing one comes first. */
  ghost function StartOf(e: Evidence): string {
    match e.started
    case None => ""
    case Some(start) => start
  }

  /** The traces of a project come in the order of their starts. */
  lemma TracesInOrder(name: string, group: seq<Trace>, extra: Dict<string, int>, merges: Dict<string, Merged>,
                      i: nat, j: nat)
    requires i < j < |ProjectOf(name, group, extra, merges).traces|
    ensures var traces := ProjectOf(name, group, extra, merges).traces;
            Lexicographic(StartOf(traces[i]), StartOf(traces[j]))
  {
    var traces := ProjectOf(name, group, extra, merges).traces;
    ByStartIsPreorder();
    SortSorts(StartsNoLater, AllEvidence(group, extra, merges));
    assert StartsNoLater(traces[i], traces[j]);
    StringLeIsLexicographic(StartOf(traces[i]), StartOf(traces[j]));
  }

  /** Traces with the same start keep the order in which they were kept. */
  lemma TracesAreStable(name: string, group: seq<Trace>, extra: Dict<string, int>, merges: Dict<string, Merged>,
                        e: Evidence)
    ensures Ranked(StartsNoLater, e, ProjectOf(name, group, extra, merges).traces)
         == Ranked(StartsNoLater, e, AllEvidence(group, extra, merges))
  {
    ByStartIsPreorder();
    SortIsStable(StartsNoLater, e, AllEvidence(group, extra, merges));
  }

  // ----- a project's figures -----

  /** The steps of a trace; missing ones count as 0. */
  function StepsOf(): Evidence -> int {
    (e: Evidence) => match e.steps case None => 0 case Some(n) => n
  }

  lemma {:induction false} TotalStepsIsSum(es: seq<Evidence>)
    ensures TotalSteps(es) == Sum(StepsOf(), es)
  {
    if es == [] {
    } else {
      TotalStepsIsSum(es[..|es| - 1]);
    }
  }

  /** The slugs of a project are those of its traces, each once and in order. */
  lemma SlugsAre(group: seq<Trace>)
    ensures StrictlyAscending(Slugs(group))
    ensures forall slug :: slug in Slugs(group) <==> exists i :: 0 <= i < |group| && group[i].slug == slug
  {
    var slugs := seq(|group|, i requires 0 <= i < |group| => group[i].slug);
    SortedSetFacts(slugs);
    forall slug ensures slug in slugs <==> exists i :: 0 <= i < |group| && group[i].slug == slug {
      if i :| 0 <= i < |group| && group[i].slug == slug {
        assert slugs[i] == slug;
      }
    }
  }

  lemma LargerIsPreorder()
    ensures TotalPreorder(Larger)
  {
  }

  /** The kept traces that belong to a project, in order. */
  function Members(projectName: string -> string, traces: seq<Trace>, name: string): seq<Trace> {
    Keyed(Naming(projectName), Collapse(traces), name)
  }

  lemma MembersAre(projectName: string -> string, traces: seq<Trace>, name: string, t: Trace)
    ensures t in Members(projectName, traces, name) <==> t in Collapse(traces) && projectName(t.slug) == name
  {
    KeyedMember(Naming(projectName), Collapse(traces), name, t);
  }

  lemma RankedGroupsAre(projectName: string -> string, traces: seq<Trace>, i: nat)
    requires i < |RankedGroups(projectName, traces)|
    ensures var group := RankedGroups(projectName, traces)[i];
            group.1 == Members(projectName, traces, group.0) && group.1 != []
  {
    var groups, ranked := GroupBy(Naming(projectName), Collapse(traces)), RankedGroups(projectName, traces);
    SortSorts(Larger, groups);
    assert ranked[i] in multiset(groups);
    var g :| 0 <= g < |groups| && groups[g] == ranked[i];
    GroupAt(Naming(projectName), Collapse(traces), g);
    GroupsAreNotEmpty(Naming(projectName), Collapse(traces));
  }

  /** The project has the figures of exactly its own kept traces. */
  ghost predicate HasFigures(p: Project, group: seq<Trace>, extra: Dict<string, int>, merges: Dict<string, Merged>) {
    && multiset(p.traces) == multiset(AllEvidence(group, extra, merges))
    && p.traceCount == |group| && p.totalSteps == Sum(StepsOf(), p.traces)
    && StrictlyAscending(p.slugs)
    && forall slug :: slug in p.slugs <==> exists i :: 0 <= i < |group| && group[i].slug == slug
  }

  /** Every project of a packet has the figures of the kept traces with its name, and larger projects come first. */
  lemma ProjectsAre(projectName: string -> string, traces: seq<Trace>, i: nat)
    requires i < |PacketOf(projectName, traces).projects|
    ensures var projects := PacketOf(projectName, traces).projects;
            && HasFigures(projects[i], Members(projectName, traces, projects[i].name), CollapsedById(traces),
                          MergedById(traces))
            && projects[i].traceCount > 0
            && forall j :: i < j < |projects| ==>
                 projects[i].traceCount >= projects[j].traceCount && projects[i].name != projects[j].name
  {
    var extra, merges := CollapsedById(traces), MergedById(traces);
    var groups, ranked := GroupBy(Naming(projectName), Collapse(traces)), RankedGroups(projectName, traces);
    var p := PacketOf(projectName, traces).projects[i];
    FiguresOf(ranked[i].0, ranked[i].1, extra, merges);
    RankedGroupsAre(projectName, traces, i);
    LargerIsPreorder();
    SortSorts(Larger, groups);
    GroupByFacts(Naming(projectName), Collapse(traces));
    RankedNamesDiffer(groups);
    forall j | i < j < |ranked|
      ensures |ranked[i].1| >= |ranked[j].1| && ranked[i].0 != ranked[j].0
      ensures PacketOf(projectName, traces).projects[j].traceCount == |ranked[j].1|
    {
      assert Larger(ranked[i], ranked[j]);
      FiguresOf(ranked[j].0, ranked[j].1, extra, merges);
    }
  }

  lemma FiguresOf(name: string, group: seq<Trace>, extra: Dict<string, int>, merges: Dict<string, Merged>)
    ensures var p := ProjectOf(name, group, extra, merges);
            HasFigures(p, group, extra, merges) && p.name == name
  {
    SortSorts(StartsNoLater, AllEvidence(group, extra, merges));
    TotalStepsIsSum(ProjectOf(name, group, extra, merges).traces);
    SlugsAre(group);
  }

  /** Sorting keeps the names apart. */
  lemma RankedNamesDiffer(groups: Groups)
    requires DistinctKeys(groups)
    ensures DistinctKeys(Sort(Larger, groups))
  {
    var ranked := Sort(Larger, groups);
    SortSorts(Larger, groups);
    forall i, j | 0 <= i < j < |ranked| ensures ranked[i].0 != ranked[j].0 {
      if ranked[i].0 == ranked[j].0 {
        assert ranked[i] in multiset(groups) && ranked[j] in multiset(groups);
        var a :| 0 <= a < |groups| && groups[a] == ranked[i];
        var b :| 0 <= b < |groups| && groups[b] == ranked[j];
        assert a == b;
        TwiceInOne(ranked, i, j);
        OnceOnly(groups, a);
      }
    }
  }

  lemma TwiceInOne(s: Groups, i: nat, j: nat)
    requires i < j < |s| && s[i] == s[j]
    ensures multiset(s)[s[i]] >= 2
  {
    assert s == s[..i] + ([s[i]] + (s[i + 1..j] + ([s[j]] + s[j + 1..])));
  }

  lemma OnceOnly(groups: Groups, a: nat)
    requires a < |groups| && DistinctKeys(groups)
    ensures multiset(groups)[groups[a]] == 1
  {
    assert groups == groups[..a] + ([groups[a]] + groups[a + 1..]);
    assert groups[a] !in groups[..a] && groups[a] !in groups[a + 1..];
  }

  // ----- the tools of a chain -----

  lemma MoreUsedIsPreorder()
    ensures TotalPreorder(MoreUsed)
  {
  }

  /** The merged tools of a chain are its six most used ones, most used first, and equally used ones in their order. */
  lemma MergedToolsAreRanked(group: seq<Trace>) returns (dropped: Dict<string, int>)
    ensures var tools := MergeOf(group).tools;
            && multiset(tools + dropped) == multiset(MergeTools(group))
            && |tools| <= 6 && (dropped != [] ==> |tools| == 6)
            && (forall i, j :: 0 <= i < j < |tools| ==> tools[i].1 >= tools[j].1)
            && (forall i, j :: 0 <= i < |tools| && 0 <= j < |dropped| ==> tools[i].1 >= dropped[j].1)
            && forall x :: Ranked(MoreUsed, x, tools + dropped) == Ranked(MoreUsed, x, MergeTools(group))
  {
    var all := MergeTools(group);
    var ranked := Sort(MoreUsed, all);
    MoreUsedIsPreorder();
    SortSorts(MoreUsed, all);
    var tools := MergeOf(group).tools;
    dropped := ranked[|tools|..];
    assert tools + dropped == ranked;
    forall i, j | 0 <= i < j < |ranked| ensures ranked[i].1 >= ranked[j].1 {
      assert MoreUsed(ranked[i], ranked[j]);
    }
    forall x ensures Ranked(MoreUsed, x, ranked) == Ranked(MoreUsed, x, all) {
      SortIsStable(MoreUsed, x, all);
    }
  }
}
