/** The standup packet: collapsed traces, grouped by project, with the evidence of their chains. */
module StandupPacket {
  import opened Wrappers
  import opened Sorting
  import opened OrderedDict
  import opened StandupModel
  import opened StandupCollapse

  datatype Evidence = Evidence(
    id: string,
    started: Option<string>,
    collapsedGenerations: int,
    files: seq<string>,
    tools: Dict<string, int>,
    skills: seq<string>,
    steps: Option<int>
  )

  datatype Project = Project(name: string, slugs: seq<string>, traceCount: nat, totalSteps: int, traces: seq<Evidence>)

  datatype Packet = Packet(sessionCount: nat, rawTraceCount: nat, collapsedGenerations: int, projects: seq<Project>)

  /** What the packet says about a kept trace: its own evidence, or that of its whole chain. */
  function EvidenceOf(t: Trace, extra: Dict<string, int>, merges: Dict<string, Merged>): Evidence {
    var collapsed: Option<int> := Get(extra, t.id);
    var n := if collapsed.Some? then collapsed.value else 0;
    var merged: Option<Merged> := Get(merges, t.id);
    if merged.Some? then
      var m := merged.value;
      Evidence(t.id, t.started, n, m.files, m.tools, m.skills, Some(m.steps))
    else Evidence(t.id, t.started, n, SortedSet(t.files), TopTools(t.tools), t.skills, t.totalSteps)
  }

  function Start(e: Evidence): string {
    if e.started.Some? then e.started.value else ""
  }

  predicate StartsNoLater(a: Evidence, b: Evidence) {
    StringLe(Start(a), Start(b))
  }

  predicate Larger(a: (string, seq<Trace>), b: (string, seq<Trace>)) {
    |a.1| >= |b.1|
  }

  function StepsIn(e: Evidence): int {
    if e.steps.Some? then e.steps.value else 0
  }

  function TotalSteps(es: seq<Evidence>): int {
    if es == [] then 0 else TotalSteps(es[..|es| - 1]) + StepsIn(es[|es| - 1])
  }

  function AllEvidence(group: seq<Trace>, extra: Dict<string, int>, merges: Dict<string, Merged>)
    : (es: seq<Evidence>)
    ensures |es| == |group|
  {
    seq(|group|, i requires 0 <= i < |group| => EvidenceOf(group[i], extra, merges))
  }

  function Slugs(group: seq<Trace>): seq<string> {
    SortedSet(seq(|group|, i requires 0 <= i < |group| => group[i].slug))
  }

  function ProjectOf(name: string, group: seq<Trace>, extra: Dict<string, int>, merges: Dict<string, Merged>): Project {
    var traces := Sort(StartsNoLater, AllEvidence(group, extra, merges));
    Project(name, Slugs(group), |traces|, TotalSteps(traces), traces)
  }

  /** The project name of a trace, for a given naming of slugs. */
  function Naming(projectName: string -> string): Trace -> string {
    (t: Trace) => projectName(t.slug)
  }

  function RankedGroups(projectName: string -> string, traces: seq<Trace>): Groups {
    Sort(Larger, GroupBy(Naming(projectName), Collapse(traces)))
  }

  function Projects(groups: Groups, extra: Dict<string, int>, merges: Dict<string, Merged>): (ps: seq<Project>)
    ensures |ps| == |groups|
  {
    seq(|groups|, i requires 0 <= i < |groups| => ProjectOf(groups[i].0, groups[i].1, extra, merges))
  }

  function PacketOf(projectName: string -> string, traces: seq<Trace>): Packet {
    Packet(|Collapse(traces)|, |traces|, Collapsed(traces),
           Projects(RankedGroups(projectName, traces), CollapsedById(traces), MergedById(traces)))
  }

  method GroupByProject(projectName: string -> string, kept: seq<Trace>) returns (groups: Groups)
    ensures groups == GroupBy(Naming(projectName), kept)
  {
    groups := [];
    for i := 0 to |kept|
      invariant groups == GroupBy(Naming(projectName), kept[..i])
    {
      assert kept[..i + 1][..i] == kept[..i];
      groups := AddTo(groups, projectName(kept[i].slug), kept[i]);
    }
    assert kept[..|kept|] == kept;
  }

  method RollUp(traces: seq<Evidence>) returns (traceCount: nat, totalSteps: int)
    ensures traceCount == |traces| && totalSteps == TotalSteps(traces)
  {
    totalSteps := 0;
    for i := 0 to |traces|
      invariant totalSteps == TotalSteps(traces[..i])
    {
      assert traces[..i + 1][..i] == traces[..i];
      totalSteps := totalSteps + if traces[i].steps.Some? then traces[i].steps.value else 0;
    }
    assert traces[..|traces|] == traces;
    traceCount := |traces|;
  }

  method BuildProject(name: string, group: seq<Trace>, extra: Dict<string, int>, merges: Dict<string, Merged>)
    returns (project: Project)
    ensures project == ProjectOf(name, group, extra, merges)
  {
    var traces: seq<Evidence> := [];
    for i := 0 to |group|
      invariant traces == AllEvidence(group, extra, merges)[..i]
    {
      traces := traces + [EvidenceOf(group[i], extra, merges)];
    }
    assert traces == AllEvidence(group, extra, merges);
    traces := Sort(StartsNoLater, traces);
    var traceCount, totalSteps := RollUp(traces);
    project := Project(name, Slugs(group), traceCount, totalSteps, traces);
  }

  method BuildProjects(groups: Groups, extra: Dict<string, int>, merges: Dict<string, Merged>)
    returns (projects: seq<Project>)
    ensures projects == Projects(groups, extra, merges)
  {
    projects := [];
    for i := 0 to |groups|
      invariant projects == Projects(groups, extra, merges)[..i]
    {
      var project := BuildProject(groups[i].0, groups[i].1, extra, merges);
      projects := projects + [project];
    }
  }

  method BuildPacket(projectName: string -> string, traces: seq<Trace>) returns (packet: Packet)
    ensures packet == PacketOf(projectName, traces)
  {
    var kept, collapsed, extra, merges := CollapseSupersessions(traces);
    var groups := GroupByProject(projectName, kept);
    var projects := BuildProjects(Sort(Larger, groups), extra, merges);
    packet := Packet(|kept|, |traces|, collapsed, projects);
  }
}
