/** The CI shard allocator: every test file goes to the least loaded shard, heaviest file first. */
module ShardAllocator {
  import opened Wrappers
  import opened Sorting

  /** A path relative to the repository root, as a POSIX string. */
  type Path = string

  /** The text of a file, or None when the file is not valid UTF-8. */
  type Source = Path -> Option<string>

  function Newlines(text: string): nat {
    if text == "" then 0 else Newlines(text[..|text| - 1]) + if text[|text| - 1] == '\n' then 1 else 0
  }

  lemma {:induction false} NewlinesAreCounted(text: string)
    ensures Newlines(text) == |set i | 0 <= i < |text| && text[i] == '\n'|
  {
    var at := set i | 0 <= i < |text| && text[i] == '\n';
    if text == "" {
      assert at == {};
    } else {
      var n := |text| - 1;
      NewlinesAreCounted(text[..n]);
      var before := set i | 0 <= i < n && text[..n][i] == '\n';
      assert at == before + if text[n] == '\n' then {n} else {};
    }
  }

  function Weight(source: Source, p: Path): (w: nat)
    ensures w >= 1
  {
    match source(p)
    case Some(text) => var n := Newlines(text); if n > 1 then n else 1
    case None => 1
  }

  /** A file weighs the number of its line feeds, but at least 1; one that is not valid UTF-8 weighs 1. */
  lemma WeightIsLineCount(source: Source, p: Path)
    ensures source(p).None? ==> Weight(source, p) == 1
    ensures source(p).Some? ==>
              var text := source(p).value;
              var lines := |set i | 0 <= i < |text| && text[i] == '\n'|;
              Weight(source, p) == if lines > 1 then lines else 1
  {
    if source(p).Some? {
      NewlinesAreCounted(source(p).value);
    }
  }

  function Weights(source: Source, paths: seq<Path>): (ws: seq<nat>)
    ensures |ws| == |paths|
    ensures forall i :: 0 <= i < |ws| ==> ws[i] == Weight(source, paths[i]) >= 1
  {
    seq(|paths|, i requires 0 <= i < |paths| => Weight(source, paths[i]))
  }

  predicate HeavierFirst(source: Source, p: Path, q: Path) {
    var v, w := Weight(source, p), Weight(source, q);
    v > w || (v == w && StringLe(p, q))
  }

  function AllocationOrder(source: Source): (Path, Path) -> bool {
    (p, q) => HeavierFirst(source, p, q)
  }

  /** The lowest index among the least loads. */
  function LeastLoaded(loads: seq<nat>): (best: nat)
    requires loads != []
    ensures best < |loads|
    ensures forall i :: 0 <= i < |loads| ==> loads[best] <= loads[i]
    ensures forall i :: 0 <= i < best ==> loads[best] < loads[i]
  {
    var last := |loads| - 1;
    if last == 0 then 0 else
      var b := LeastLoaded(loads[..last]);
      assert forall i :: 0 <= i < last ==> loads[..last][i] == loads[i];
      if loads[last] < loads[b] then last else b
  }

  // ----- assignments: the i-th item goes to shard `shard[i]` -----

  /** The total value that an assignment puts on shard k. */
  function Load(vals: seq<nat>, shard: seq<nat>, k: nat): nat
    requires |vals| == |shard|
  {
    if vals == [] then 0 else
      var n := |vals| - 1;
      Load(vals[..n], shard[..n], k) + if shard[n] == k then vals[n] else 0
  }

  function Loads(vals: seq<nat>, shard: seq<nat>, m: nat): (loads: seq<nat>)
    requires |vals| == |shard|
    ensures |loads| == m
    ensures forall k :: 0 <= k < m ==> loads[k] == Load(vals, shard, k)
  {
    seq(m, k requires 0 <= k < m => Load(vals, shard, k))
  }

  /** The greedy assignment, one item after the other. */
  function Greedy(ws: seq<nat>, m: nat): (shard: seq<nat>)
    requires m >= 1
    ensures |shard| == |ws|
    ensures forall i :: 0 <= i < |ws| ==> shard[i] < m
  {
    if ws == [] then [] else
      var n := |ws| - 1;
      var earlier := Greedy(ws[..n], m);
      earlier + [LeastLoaded(Loads(ws[..n], earlier, m))]
  }

  /** The items that an assignment puts on shard k, in item order. */
  function Selected(items: seq<Path>, shard: seq<nat>, k: nat): seq<Path>
    requires |items| == |shard|
  {
    if items == [] then [] else
      var n := |items| - 1;
      var earlier := Selected(items[..n], shard[..n], k);
      if shard[n] == k then earlier + [items[n]] else earlier
  }

  /** The order in which the files are placed. */
  function Items(source: Source, files: seq<Path>): seq<Path> {
    Sort(AllocationOrder(source), files)
  }

  /** Shard k of m, as one runner computes it from its own listing of the files. */
  function Shard(source: Source, files: seq<Path>, k: nat, m: nat): seq<Path>
    requires k < m
  {
    var items := Items(source, files);
    Sort(StringOrder(), Selected(items, Greedy(Weights(source, items), m), k))
  }

  lemma {:induction false} GreedyPrefix(ws: seq<nat>, m: nat, i: nat)
    requires m >= 1 && i <= |ws|
    ensures Greedy(ws[..i], m) == Greedy(ws, m)[..i]
  {
    var n := |ws| - 1;
    if i <= n {
      GreedyPrefix(ws[..n], m, i);
      assert ws[..n][..i] == ws[..i];
    } else {
      assert ws[..i] == ws;
    }
  }

  /** Every shard's files after the first i items have been placed. */
  function FilesAfter(source: Source, items: seq<Path>, m: nat, i: nat): (files: seq<seq<Path>>)
    requires m >= 1 && i <= |items|
    ensures |files| == m
  {
    var plan := Greedy(Weights(source, items), m);
    seq(m, k requires 0 <= k < m => Selected(items[..i], plan[..i], k))
  }

  /** Every shard's load after the first i items have been placed. */
  function LoadsAfter(ws: seq<nat>, m: nat, i: nat): (loads: seq<nat>)
    requires m >= 1 && i <= |ws|
    ensures |loads| == m
  {
    Loads(ws[..i], Greedy(ws, m)[..i], m)
  }

  lemma LoadAppend(vals: seq<nat>, shard: seq<nat>, v: nat, b: nat, k: nat)
    requires |vals| == |shard|
    ensures Load(vals + [v], shard + [b], k) == Load(vals, shard, k) + if b == k then v else 0
  {
    assert (vals + [v])[..|vals|] == vals && (shard + [b])[..|shard|] == shard;
  }

  lemma SelectedAppend(items: seq<Path>, shard: seq<nat>, p: Path, b: nat, k: nat)
    requires |items| == |shard|
    ensures Selected(items + [p], shard + [b], k)
         == if b == k then Selected(items, shard, k) + [p] else Selected(items, shard, k)
  {
    assert (items + [p])[..|items|] == items && (shard + [b])[..|shard|] == shard;
  }

  /** Item i goes to the least loaded shard. */
  lemma GreedyChoice(ws: seq<nat>, m: nat, i: nat)
    requires m >= 1 && i < |ws|
    ensures Greedy(ws, m)[i] == LeastLoaded(LoadsAfter(ws, m, i))
  {
    GreedyPrefix(ws, m, i);
    GreedyPrefix(ws, m, i + 1);
    assert ws[..i + 1][..i] == ws[..i];
    assert Greedy(ws[..i + 1], m)[i] == Greedy(ws, m)[i];
  }

  /** Only the load of the chosen shard grows, by the item's weight. */
  lemma LoadsStep(ws: seq<nat>, m: nat, i: nat)
    requires m >= 1 && i < |ws|
    ensures var loads := LoadsAfter(ws, m, i);
            var best := Greedy(ws, m)[i];
            LoadsAfter(ws, m, i + 1) == loads[best := loads[best] + ws[i]]
  {
    var plan := Greedy(ws, m);
    assert ws[..i + 1] == ws[..i] + [ws[i]] && plan[..i + 1] == plan[..i] + [plan[i]];
    forall k | 0 <= k < m
      ensures LoadsAfter(ws, m, i + 1)[k] == LoadsAfter(ws, m, i)[k] + if plan[i] == k then ws[i] else 0
    {
      LoadAppend(ws[..i], plan[..i], ws[i], plan[i], k);
    }
  }

  lemma FilesStep(source: Source, items: seq<Path>, m: nat, i: nat)
    requires m >= 1 && i < |items|
    ensures var files := FilesAfter(source, items, m, i);
            var best := Greedy(Weights(source, items), m)[i];
            FilesAfter(source, items, m, i + 1) == files[best := files[best] + [items[i]]]
  {
    var plan := Greedy(Weights(source, items), m);
    assert items[..i + 1] == items[..i] + [items[i]] && plan[..i + 1] == plan[..i] + [plan[i]];
    forall k | 0 <= k < m
      ensures FilesAfter(source, items, m, i + 1)[k]
           == var files := FilesAfter(source, items, m, i)[k]; if plan[i] == k then files + [items[i]] else files
    {
      SelectedAppend(items[..i], plan[..i], items[i], plan[i], k);
    }
  }

  /** One round of the allocation loop, on all shards at once. */
  lemma PlaceItem(source: Source, items: seq<Path>, m: nat, i: nat)
    requires m >= 1 && i < |items|
    ensures var files, loads := FilesAfter(source, items, m, i), LoadsAfter(Weights(source, items), m, i);
            var best := LeastLoaded(loads);
            && FilesAfter(source, items, m, i + 1) == files[best := files[best] + [items[i]]]
            && LoadsAfter(Weights(source, items), m, i + 1)
               == loads[best := loads[best] + Weight(source, items[i])]
  {
    GreedyChoice(Weights(source, items), m, i);
    LoadsStep(Weights(source, items), m, i);
    FilesStep(source, items, m, i);
  }

  lemma StateAtEnds(source: Source, items: seq<Path>, m: nat)
    requires m >= 1
    ensures FilesAfter(source, items, m, 0) == seq(m, _ => [])
    ensures LoadsAfter(Weights(source, items), m, 0) == seq(m, _ => 0)
    ensures forall k :: 0 <= k < m ==>
              FilesAfter(source, items, m, |items|)[k] == Selected(items, Greedy(Weights(source, items), m), k)
  {
    assert items[..|items|] == items;
    var plan := Greedy(Weights(source, items), m);
    assert plan[..|items|] == plan;
  }

  /** The body of the allocation loop: one more item is placed. */
  method Place(source: Source, items: seq<Path>, i: nat, buckets: array<seq<Path>>, weights: array<nat>)
    requires i < |items| && buckets.Length == weights.Length > 0
    requires buckets[..] == FilesAfter(source, items, buckets.Length, i)
    requires weights[..] == LoadsAfter(Weights(source, items), weights.Length, i)
    modifies buckets, weights
    ensures buckets[..] == FilesAfter(source, items, buckets.Length, i + 1)
    ensures weights[..] == LoadsAfter(Weights(source, items), weights.Length, i + 1)
  {
    PlaceItem(source, items, buckets.Length, i);
    ghost var files, loads := buckets[..], weights[..];
    var best := LeastLoaded(weights[..]);
    buckets[best] := buckets[best] + [items[i]];
    weights[best] := weights[best] + Weight(source, items[i]);
    assert buckets[..] == files[best := files[best] + [items[i]]];
    assert weights[..] == loads[best := loads[best] + Weight(source, items[i])];
  }

  method BucketFiles(source: Source, files: seq<Path>, shardIndex: int, shardTotal: int)
    returns (r: Result<seq<Path>, string>)
    ensures shardTotal < 1 ==> r == Failure("--shard-total must be >= 1")
    ensures shardTotal >= 1 && !(0 <= shardIndex < shardTotal) ==>
              r == Failure("--shard-index must satisfy 0 <= index < shard-total")
    ensures 0 <= shardIndex < shardTotal ==> r == Success(Shard(source, files, shardIndex, shardTotal))
  {
    if shardTotal < 1 {
      return Failure("--shard-total must be >= 1");
    }
    if shardIndex < 0 || shardIndex >= shardTotal {
      return Failure("--shard-index must satisfy 0 <= index < shard-total");
    }
    var buckets := new seq<Path>[shardTotal](_ => []);
    var weights := new nat[shardTotal](_ => 0);
    var items := Sort(AllocationOrder(source), files);
    StateAtEnds(source, items, shardTotal);
    assert buckets[..] == seq(shardTotal, _ => []);
    assert weights[..] == seq(shardTotal, _ => 0);
    for i := 0 to |items|
      invariant buckets[..] == FilesAfter(source, items, shardTotal, i)
      invariant weights[..] == LoadsAfter(Weights(source, items), shardTotal, i)
    {
      Place(source, items, i, buckets, weights);
    }
    r := Success(Sort(StringOrder(), buckets[..][shardIndex]));
  }
}
