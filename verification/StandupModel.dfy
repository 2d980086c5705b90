/** Stored traces in the standup example, and the evidence that a chain of resumed traces adds up to. */
module StandupModel {
  import opened Wrappers
  import opened Sorting
  import opened OrderedDict

  /** A stored trace, as far as the scripts look at it. */
  datatype Trace = Trace(
    id: string,
    slug: string,
    session: Option<string>,
    generation: Option<int>,
    totalSteps: Option<int>,          // None without metrics
    seconds: Option<real>,            // None without metrics or duration
    started: Option<string>,
    files: seq<string>,
    tools: Dict<string, int>,
    skills: seq<string>
  )

  predicate HasSession(t: Trace) {
    t.session.Some? && t.session.value != ""
  }

  function SessionOf(t: Trace): string {
    if t.session.Some? then t.session.value else ""
  }

  function Generation(t: Trace): int {
    if t.generation.Some? then t.generation.value else 0
  }

  function Steps(t: Trace): int {
    if t.totalSteps.Some? then t.totalSteps.value else 0
  }

  /** The lexicographic order by generation, then steps. */
  predicate Below(s: Trace, t: Trace) {
    Generation(s) < Generation(t) || (Generation(s) == Generation(t) && Steps(s) < Steps(t))
  }

  /** Python's `max` over a chain. */
  function Best(group: seq<Trace>): Trace
    requires group != []
  {
    var n := |group| - 1;
    if n == 0 then group[0] else
      var b := Best(group[..n]);
      if Below(b, group[n]) then group[n] else b
  }

  /** It is the first of the traces that no trace of the chain is above. */
  lemma {:induction false} BestIsFirstMaximal(group: seq<Trace>) returns (i: nat)
    requires group != []
    ensures i < |group| && group[i] == Best(group)
    ensures forall j :: 0 <= j < i ==> Below(group[j], group[i])
    ensures forall j :: 0 <= j < |group| ==> !Below(group[i], group[j])
  {
    var n := |group| - 1;
    i := 0;
    if n == 0 {
    } else {
      var earlier := group[..n];
      i := BestIsFirstMaximal(earlier);
      assert forall j :: 0 <= j < n ==> earlier[j] == group[j];
      if Below(group[i], group[n]) {
        i := n;
      }
    }
  }

  // ----- the union of the evidence of a chain -----

  datatype Merged = Merged(
    files: seq<string>,
    tools: Dict<string, int>,
    skills: seq<string>,
    steps: int,
    seconds: Option<real>
  )

  const TOP_TOOLS := 6

  function AllFiles(group: seq<Trace>): seq<string> {
    if group == [] then [] else AllFiles(group[..|group| - 1]) + group[|group| - 1].files
  }

  function AllSkills(group: seq<Trace>): seq<string> {
    if group == [] then [] else AllSkills(group[..|group| - 1]) + group[|group| - 1].skills
  }

  function Max(a: int, b: int): int {
    if a >= b then a else b
  }

  function CountOf(tools: Dict<string, int>, tool: string): int {
    var n: Option<int> := Get(tools, tool);
    if n.Some? then n.value else 0
  }

  /** Every tool keeps the higher of its two counts. */
  function RaiseTools(tools: Dict<string, int>, used: Dict<string, int>): Dict<string, int> {
    if used == [] then tools else
      var n := |used| - 1;
      var raised := RaiseTools(tools, used[..n]);
      Put(raised, used[n].0, Max(CountOf(raised, used[n].0), used[n].1))
  }

  function MergeTools(group: seq<Trace>): Dict<string, int> {
    if group == [] then [] else RaiseTools(MergeTools(group[..|group| - 1]), group[|group| - 1].tools)
  }

  function MaxSteps(group: seq<Trace>): int {
    if group == [] then 0 else
      var earlier := MaxSteps(group[..|group| - 1]);
      if group[|group| - 1].totalSteps.Some? then Max(earlier, Steps(group[|group| - 1])) else earlier
  }

  /** A duration that Python takes for true. */
  function NonZero(seconds: real): Option<real> {
    if seconds != 0.0 then Some(seconds) else None
  }

  function Longest(group: seq<Trace>): real {
    if group == [] then 0.0 else
      var earlier, last := Longest(group[..|group| - 1]), group[|group| - 1].seconds;
      if last.Some? && last.value > earlier then last.value else earlier
  }

  predicate MoreUsed(a: (string, int), b: (string, int)) {
    a.1 >= b.1
  }

  /** The six most used tools, most used first. */
  function TopTools(tools: Dict<string, int>): Dict<string, int> {
    var ranked := Sort(MoreUsed, tools);
    if |ranked| > TOP_TOOLS then ranked[..TOP_TOOLS] else ranked
  }

  function MergeOf(group: seq<Trace>): Merged {
    Merged(SortedSet(AllFiles(group)), TopTools(MergeTools(group)), SortedSet(AllSkills(group)), MaxSteps(group),
           NonZero(Longest(group)))
  }

  method RaiseEach(tools: Dict<string, int>, used: Dict<string, int>) returns (raised: Dict<string, int>)
    ensures raised == RaiseTools(tools, used)
  {
    raised := tools;
    for i := 0 to |used|
      invariant raised == RaiseTools(tools, used[..i])
    {
      assert used[..i + 1][..i] == used[..i];
      raised := Put(raised, used[i].0, Max(CountOf(raised, used[i].0), used[i].1));
    }
    assert used[..|used|] == used;
  }

  method MergeChain(group: seq<Trace>) returns (merged: Merged)
    ensures merged == MergeOf(group)
  {
    var files: seq<string>, tools: Dict<string, int>, skills: seq<string>, maxSteps := [], [], [], 0;
    var longest := 0.0;
    for i := 0 to |group|
      invariant files == AllFiles(group[..i]) && skills == AllSkills(group[..i])
      invariant tools == MergeTools(group[..i])
      invariant maxSteps == MaxSteps(group[..i]) && longest == Longest(group[..i])
    {
      assert group[..i + 1][..i] == group[..i];
      files := files + group[i].files;
      tools := RaiseEach(tools, group[i].tools);
      skills := skills + group[i].skills;
      if group[i].totalSteps.Some? {
        maxSteps := Max(maxSteps, group[i].totalSteps.value);
      }
      if group[i].seconds.Some? && group[i].seconds.value > longest {
        longest := group[i].seconds.value;
      }
    }
    assert group[..|group|] == group;
    merged := Merged(SortedSet(files), TopTools(tools), SortedSet(skills), maxSteps, NonZero(longest));
  }
}
