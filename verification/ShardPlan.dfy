/** What the shards of independent CI runners add up to: nothing lost, nothing run twice, loads near optimal. */
module ShardPlan {
  import opened Sorting
  import opened ShardAllocator
  import opened ShardLoads

  function WeightSum(source: Source, paths: seq<Path>): nat {
    Total(Weights(source, paths))
  }

  /** All files of a list of shards together. */
  ghost function Pooled(shards: seq<seq<Path>>): multiset<Path> {
    if shards == [] then multiset{} else Pooled(shards[..|shards| - 1]) + multiset(shards[|shards| - 1])
  }

  lemma {:induction false} PooledUpdate(shards: seq<seq<Path>>, k: nat, paths: seq<Path>)
    requires k < |shards|
    ensures forall p :: Pooled(shards[k := paths])[p] + multiset(shards[k])[p]
                     == Pooled(shards)[p] + multiset(paths)[p]
  {
    var n := |shards| - 1;
    var updated := shards[k := paths];
    if k < n {
      PooledUpdate(shards[..n], k, paths);
      assert updated[..n] == shards[..n][k := paths];
      assert Pooled(updated) == Pooled(shards[..n][k := paths]) + multiset(shards[n]);
    } else {
      assert updated[..n] == shards[..n];
    }
  }

  lemma {:induction false} PooledMember(shards: seq<seq<Path>>, p: Path) returns (k: nat)
    requires p in Pooled(shards)
    ensures k < |shards| && p in shards[k]
  {
    var n := |shards| - 1;
    if p in shards[n] {
      k := n;
    } else {
      k := PooledMember(shards[..n], p);
    }
  }

  lemma {:induction false} PooledContains(shards: seq<seq<Path>>, k: nat)
    requires k < |shards|
    ensures multiset(shards[k]) <= Pooled(shards)
  {
    if k < |shards| - 1 {
      PooledContains(shards[..|shards| - 1], k);
    }
  }

  lemma {:induction false} PooledContainsTwo(shards: seq<seq<Path>>, a: nat, b: nat)
    requires a < b < |shards|
    ensures multiset(shards[a]) + multiset(shards[b]) <= Pooled(shards)
  {
    if b < |shards| - 1 {
      PooledContainsTwo(shards[..|shards| - 1], a, b);
    } else {
      PooledContains(shards[..b], a);
    }
  }

  // ----- weights of lists of files -----

  lemma WeightSumAppend(source: Source, paths: seq<Path>, p: Path)
    ensures WeightSum(source, paths + [p]) == WeightSum(source, paths) + Weight(source, p)
  {
    var ws := Weights(source, paths + [p]);
    assert ws[..|paths|] == Weights(source, paths);
  }

  lemma {:induction false} WeightSumWithout(source: Source, paths: seq<Path>, i: nat)
    requires i < |paths|
    ensures WeightSum(source, paths) == WeightSum(source, paths[..i] + paths[i + 1..]) + Weight(source, paths[i])
  {
    var n := |paths| - 1;
    assert paths == paths[..n] + [paths[n]];
    WeightSumAppend(source, paths[..n], paths[n]);
    if i < n {
      WeightSumWithout(source, paths[..n], i);
      var rest := paths[..n][..i] + paths[..n][i + 1..];
      assert paths[..i] + paths[i + 1..] == rest + [paths[n]];
      WeightSumAppend(source, rest, paths[n]);
    } else {
      assert paths[..i] + paths[i + 1..] == paths[..n];
    }
  }

  lemma {:induction false} WeightSumPermutation(source: Source, s: seq<Path>, t: seq<Path>)
    requires multiset(s) == multiset(t)
    ensures WeightSum(source, s) == WeightSum(source, t)
  {
    if s == [] {
      assert |multiset(t)| == |t|;
    } else {
      var n := |s| - 1;
      var i := TakeLast(s, t);
      WeightSumPermutation(source, s[..n], t[..i] + t[i + 1..]);
      WeightSumWithout(source, t, i);
      assert s == s[..n] + [s[n]];
      WeightSumAppend(source, s[..n], s[n]);
    }
  }

  lemma {:induction false} SelectedWeight(source: Source, items: seq<Path>, shard: seq<nat>, k: nat)
    requires |items| == |shard|
    ensures WeightSum(source, Selected(items, shard, k)) == Load(Weights(source, items), shard, k)
  {
    if items == [] {
    } else {
      var n := |items| - 1;
      SelectedWeight(source, items[..n], shard[..n], k);
      assert Weights(source, items)[..n] == Weights(source, items[..n]);
      WeightSumAppend(source, Selected(items[..n], shard[..n], k), items[n]);
    }
  }

  /** A shard weighs what the greedy assignment of the weights puts on it. */
  lemma ShardWeight(source: Source, files: seq<Path>, k: nat, m: nat)
    requires k < m
    ensures var ws := Weights(source, Items(source, files));
            WeightSum(source, Shard(source, files, k, m)) == Load(ws, Greedy(ws, m), k)
  {
    var items := Items(source, files);
    var plan := Greedy(Weights(source, items), m);
    SelectedWeight(source, items, plan, k);
    SortSorts(StringOrder(), Selected(items, plan, k));
    WeightSumPermutation(source, Shard(source, files, k, m), Selected(items, plan, k));
  }

  lemma AllocationOrderIsTotal(source: Source)
    ensures TotalOrder(AllocationOrder(source))
  {
    StringOrderIsTotal();
    var le := StringOrder();
    forall p, q ensures StringLe(p, q) || StringLe(q, p) ensures StringLe(p, q) && StringLe(q, p) ==> p == q {
      assert le(p, q) || le(q, p);
    }
    forall p, q, r | StringLe(p, q) && StringLe(q, r) ensures StringLe(p, r) {
      assert le(p, q) && le(q, r);
    }
  }

  lemma ItemsDescend(source: Source, files: seq<Path>)
    ensures var items := Items(source, files);
            multiset(items) == multiset(files) && |items| == |files| && Descending(Weights(source, items))
  {
    var items := Items(source, files);
    AllocationOrderIsTotal(source);
    SortSorts(AllocationOrder(source), files);
    forall i, j | 0 <= i <= j < |items| ensures Weight(source, items[i]) >= Weight(source, items[j]) {
      assert i < j ==> AllocationOrder(source)(items[i], items[j]);
    }
  }

  /** A shard is listed in path order. */
  lemma ShardInPathOrder(source: Source, files: seq<Path>, k: nat, m: nat)
    requires k < m
    ensures SortedBy(StringOrder(), Shard(source, files, k, m))
  {
    var items := Items(source, files);
    StringOrderIsTotal();
    SortSorts(StringOrder(), Selected(items, Greedy(Weights(source, items), m), k));
  }

  // ----- every file runs exactly once, although every runner plans on its own -----

  ghost function Shares(items: seq<Path>, shard: seq<nat>, m: nat): (shares: seq<seq<Path>>)
    requires |items| == |shard|
    ensures |shares| == m
  {
    seq(m, k requires 0 <= k < m => Selected(items, shard, k))
  }

  lemma {:induction false} SharesPool(items: seq<Path>, shard: seq<nat>, m: nat)
    requires |items| == |shard| && forall i :: 0 <= i < |shard| ==> shard[i] < m
    ensures Pooled(Shares(items, shard, m)) == multiset(items)
  {
    if items == [] {
      NothingPools(Shares(items, shard, m));
    } else {
      var n := |items| - 1;
      var before := Shares(items[..n], shard[..n], m);
      SharesPool(items[..n], shard[..n], m);
      assert items == items[..n] + [items[n]];
      PooledUpdate(before, shard[n], before[shard[n]] + [items[n]]);
      SharesStep(items, shard, m);
      assert multiset(before[shard[n]] + [items[n]]) == multiset(before[shard[n]]) + multiset{items[n]};
    }
  }

  lemma SharesStep(items: seq<Path>, shard: seq<nat>, m: nat)
    requires |items| == |shard| > 0 && shard[|shard| - 1] < m
    ensures var n := |items| - 1;
            var before := Shares(items[..n], shard[..n], m);
            Shares(items, shard, m) == before[shard[n] := before[shard[n]] + [items[n]]]
  {
  }

  lemma {:induction false} NothingPools(shards: seq<seq<Path>>)
    requires forall k :: 0 <= k < |shards| ==> shards[k] == []
    ensures Pooled(shards) == multiset{}
  {
    if shards == [] {
    } else {
      NothingPools(shards[..|shards| - 1]);
    }
  }

  /** A shard does not depend on the order in which the runner happens to list the files. */
  lemma ShardIgnoresListing(source: Source, files: seq<Path>, listing: seq<Path>, k: nat, m: nat)
    requires k < m && multiset(listing) == multiset(files)
    ensures Shard(source, listing, k, m) == Shard(source, files, k, m)
  {
    AllocationOrderIsTotal(source);
    SortIgnoresOrder(AllocationOrder(source), listing, files);
  }

  /** The shards that m runners compute, each from its own listing. */
  ghost function RunnersShards(source: Source, listings: seq<seq<Path>>): (shards: seq<seq<Path>>)
    ensures |shards| == |listings|
  {
    seq(|listings|, k requires 0 <= k < |listings| => Shard(source, listings[k], k, |listings|))
  }

  /** Separate runners with separately ordered listings run every file exactly as often as it is listed. */
  lemma ShardsPartition(source: Source, files: seq<Path>, listings: seq<seq<Path>>)
    requires listings != []
    requires forall k :: 0 <= k < |listings| ==> multiset(listings[k]) == multiset(files)
    ensures Pooled(RunnersShards(source, listings)) == multiset(files)
  {
    var m := |listings|;
    var items := Items(source, files);
    var plan := Greedy(Weights(source, items), m);
    var shares := Shares(items, plan, m);
    SharesPool(items, plan, m);
    ItemsDescend(source, files);
    forall k | 0 <= k < m ensures multiset(RunnersShards(source, listings)[k]) == multiset(shares[k]) {
      ShardIgnoresListing(source, files, listings[k], k, m);
      SortSorts(StringOrder(), shares[k]);
    }
    PooledPointwise(RunnersShards(source, listings), shares);
  }

  lemma {:induction false} PooledPointwise(s: seq<seq<Path>>, t: seq<seq<Path>>)
    requires |s| == |t| && forall k :: 0 <= k < |s| ==> multiset(s[k]) == multiset(t[k])
    ensures Pooled(s) == Pooled(t)
  {
    if s == [] {
    } else {
      PooledPointwise(s[..|s| - 1], t[..|s| - 1]);
    }
  }

  /** For distinct paths: every file is on one runner's shard, and on no other's. */
  lemma EveryFileOnOneRunner(source: Source, files: seq<Path>, listings: seq<seq<Path>>, p: Path)
    requires listings != []
    requires forall k :: 0 <= k < |listings| ==> multiset(listings[k]) == multiset(files)
    requires forall i, j :: 0 <= i < j < |files| ==> files[i] != files[j]
    ensures var shards := RunnersShards(source, listings);
            && (p in files <==> exists k :: 0 <= k < |shards| && p in shards[k])
            && (forall a, b :: 0 <= a < b < |shards| ==> p !in shards[a] || p !in shards[b])
  {
    var shards := RunnersShards(source, listings);
    ShardsPartition(source, files, listings);
    if p in files {
      assert p in multiset(files);
      var k := PooledMember(shards, p);
    }
    forall k | 0 <= k < |shards| && p in shards[k] ensures p in files {
      PooledContains(shards, k);
      assert p in multiset(shards[k]);
      assert p in multiset(files);
    }
    forall a, b | 0 <= a < b < |shards| ensures p !in shards[a] || p !in shards[b] {
      PooledContainsTwo(shards, a, b);
      if p in shards[a] && p in shards[b] {
        assert p in multiset(shards[a]) && p in multiset(shards[b]);
        assert multiset(files)[p] >= 2;
        OccursTwice(files, p);
      }
    }
  }

  lemma {:induction false} OccursTwice(files: seq<Path>, p: Path)
    requires multiset(files)[p] >= 2
    ensures exists i, j :: 0 <= i < j < |files| && files[i] == p == files[j]
  {
    var n := |files| - 1;
    assert files == files[..n] + [files[n]];
    if files[n] == p {
      assert p in multiset(files[..n]);
      var i :| 0 <= i < n && files[..n][i] == p;
      assert files[i] == p == files[n];
    } else {
      OccursTwice(files[..n], p);
    }
  }

  /** Files are placed by falling weight, and files of one weight by rising path. */
  lemma ItemsInOrder(source: Source, files: seq<Path>, i: nat, j: nat)
    requires i < j < |Items(source, files)|
    ensures multiset(Items(source, files)) == multiset(files)
    ensures var items := Items(source, files);
            || Weight(source, items[i]) > Weight(source, items[j])
            || (Weight(source, items[i]) == Weight(source, items[j]) && Lexicographic(items[i], items[j]))
  {
    AllocationOrderIsTotal(source);
    SortSorts(AllocationOrder(source), files);
    var items := Items(source, files);
    assert AllocationOrder(source)(items[i], items[j]);
    StringLeIsLexicographic(items[i], items[j]);
  }

  // ----- no shard stays empty while another one holds two files -----

  /** Exactly the first i shards have something to do. */
  ghost predicate OpenedExactly(loads: seq<nat>, i: nat) {
    forall k :: 0 <= k < |loads| ==> (loads[k] >= 1 <==> k < i)
  }

  /** The least loaded shard is the first idle one. */
  lemma FirstIdle(loads: seq<nat>, i: nat)
    requires i < |loads| && OpenedExactly(loads, i)
    ensures LeastLoaded(loads) == i
  {
    assert loads[i] == 0;
  }

  /** An item put where it belongs, while the first i shards are the busy ones, opens shard i. */
  lemma OpensNext(ws: seq<nat>, m: nat, i: nat)
    requires i < m && i < |ws| && ws[i] >= 1
    requires OpenedExactly(LoadsAfter(ws, m, i), i)
    ensures Greedy(ws, m)[i] == i && OpenedExactly(LoadsAfter(ws, m, i + 1), i + 1)
  {
    FirstIdle(LoadsAfter(ws, m, i), i);
    GreedyChoice(ws, m, i);
    LoadsStep(ws, m, i);
  }

  /** The first m items open one shard each, in shard order. */
  lemma {:induction false} FirstRound(ws: seq<nat>, m: nat, i: nat)
    requires m >= 1 && i <= m && i <= |ws|
    requires forall j :: 0 <= j < |ws| ==> ws[j] >= 1
    ensures forall j :: 0 <= j < i ==> Greedy(ws, m)[j] == j
    ensures OpenedExactly(LoadsAfter(ws, m, i), i)
  {
    if i == 0 {
    } else {
      FirstRound(ws, m, i - 1);
      OpensNext(ws, m, i - 1);
    }
  }

  lemma {:induction false} SelectedMember(items: seq<Path>, shard: seq<nat>, k: nat, p: Path)
    requires |items| == |shard|
    ensures p in Selected(items, shard, k) <==> exists i :: 0 <= i < |items| && items[i] == p && shard[i] == k
  {
    if items == [] {
    } else {
      var n := |items| - 1;
      SelectedMember(items[..n], shard[..n], k, p);
      if i :| 0 <= i < |items| && items[i] == p && shard[i] == k {
        assert i < n ==> items[..n][i] == p && shard[..n][i] == k;
      }
      if j :| 0 <= j < n && items[..n][j] == p && shard[..n][j] == k {
        assert items[j] == p && shard[j] == k;
      }
    }
  }

  /** Shard k is empty exactly when there are at most k files. */
  lemma EmptyShards(source: Source, files: seq<Path>, k: nat, m: nat)
    requires k < m
    ensures Shard(source, files, k, m) == [] <==> |files| <= k
  {
    var items := Items(source, files);
    ItemsDescend(source, files);
    var ws := Weights(source, items);
    var plan := Greedy(ws, m);
    var share := Selected(items, plan, k);
    SortSorts(StringOrder(), share);
    if |files| <= k {
      FirstRound(ws, m, |ws|);
      if share != [] {
        SelectedMember(items, plan, k, share[0]);
      }
    } else {
      FirstRound(ws, m, k + 1);
      SelectedMember(items, plan, k, items[k]);
      assert plan[k] == k && items[k] in share;
    }
  }

  // ----- how even the loads are -----

  lemma {:induction false} LastSelected(source: Source, items: seq<Path>, shard: seq<nat>, k: nat)
    requires |items| == |shard| && Descending(Weights(source, items))
    requires Selected(items, shard, k) != []
    ensures var share := Selected(items, shard, k);
            var p := share[|share| - 1];
            && LastOn(Weights(source, items), shard, k) == Weight(source, p)
            && forall q :: q in share ==> Weight(source, q) >= Weight(source, p)
  {
    var n := |items| - 1;
    var ws := Weights(source, items);
    assert ws[..n] == Weights(source, items[..n]);
    if shard[n] != k {
      LastSelected(source, items[..n], shard[..n], k);
    } else {
      forall q | q in Selected(items, shard, k) ensures Weight(source, q) >= ws[n] {
        SelectedMember(items, shard, k, q);
        var i :| 0 <= i < |items| && items[i] == q && shard[i] == k;
        assert ws[i] >= ws[n];
      }
    }
  }

  /** The last file placed on a shard is its lightest. */
  lemma LightestFile(source: Source, files: seq<Path>, k: nat, m: nat) returns (p: Path)
    requires k < m && Shard(source, files, k, m) != []
    ensures p in Shard(source, files, k, m)
    ensures forall q :: q in Shard(source, files, k, m) ==> Weight(source, q) >= Weight(source, p)
    ensures var ws := Weights(source, Items(source, files));
            Weight(source, p) == LastOn(ws, Greedy(ws, m), k)
  {
    var items := Items(source, files);
    ItemsDescend(source, files);
    var plan := Greedy(Weights(source, items), m);
    var share := Selected(items, plan, k);
    SortSorts(StringOrder(), share);
    forall q ensures q in Shard(source, files, k, m) <==> q in share {
      assert q in Shard(source, files, k, m) <==> q in multiset(Shard(source, files, k, m));
      assert q in share <==> q in multiset(share);
    }
    LastSelected(source, items, plan, k);
    p := share[|share| - 1];
  }

  /**
   Take the lightest file off any shard: what remains weighs no more than any other shard, and m times
   what remains plus that file is no more than all files together.
   */
  lemma LightestFileLevels(source: Source, files: seq<Path>, k: nat, m: nat) returns (p: Path)
    requires k < m && Shard(source, files, k, m) != []
    ensures p in Shard(source, files, k, m)
    ensures forall q :: q in Shard(source, files, k, m) ==> Weight(source, q) >= Weight(source, p)
    ensures var remains := WeightSum(source, Shard(source, files, k, m)) - Weight(source, p);
            && (forall other :: 0 <= other < m ==> remains <= WeightSum(source, Shard(source, files, other, m)))
            && m * remains + Weight(source, p) <= WeightSum(source, files)
  {
    p := LightestFile(source, files, k, m);
    var items := Items(source, files);
    var ws := Weights(source, items);
    ShardWeight(source, files, k, m);
    var remains := WeightSum(source, Shard(source, files, k, m)) - Weight(source, p);
    forall other | 0 <= other < m ensures remains <= WeightSum(source, Shard(source, files, other, m)) {
      LastItemLevels(ws, m, k, other);
      ShardWeight(source, files, other, m);
    }
    ListSchedulingBound(ws, m, k);
    ItemsDescend(source, files);
    WeightSumPermutation(source, items, files);
  }

  // ----- Graham's bound against every rival plan -----

  /** A file can be taken out of the shard that holds it. */
  lemma TakeOut(shards: seq<seq<Path>>, paths: seq<Path>, p: Path) returns (k: nat, rest: seq<Path>)
    requires Pooled(shards) == multiset(paths + [p])
    ensures k < |shards| && multiset(shards[k]) == multiset(rest + [p])
    ensures Pooled(shards[k := rest]) == multiset(paths)
  {
    assert p in multiset(paths + [p]);
    k := PooledMember(shards, p);
    var i :| 0 <= i < |shards[k]| && shards[k][i] == p;
    rest := shards[k][..i] + shards[k][i + 1..];
    assert shards[k] == shards[k][..i] + [p] + shards[k][i + 1..];
    PooledUpdate(shards, k, rest);
    forall q ensures Pooled(shards[k := rest])[q] == multiset(paths)[q] {
      assert multiset(rest + [p])[q] == multiset(shards[k])[q];
      assert multiset(paths + [p])[q] == Pooled(shards)[q];
    }
  }

  /** Any rival plan can be written down as an assignment of the items, whatever their order. */
  lemma {:induction false} RivalAssignment(items: seq<Path>, rival: seq<seq<Path>>) returns (shard: seq<nat>)
    requires Pooled(rival) == multiset(items)
    ensures |shard| == |items| && forall i :: 0 <= i < |shard| ==> shard[i] < |rival|
    ensures forall k :: 0 <= k < |rival| ==> multiset(Selected(items, shard, k)) == multiset(rival[k])
  {
    if items == [] {
      shard := [];
      forall k | 0 <= k < |rival| ensures multiset(rival[k]) == multiset{} {
        PooledContains(rival, k);
      }
    } else {
      var n := |items| - 1;
      var p := items[n];
      assert items == items[..n] + [p];
      var k, rest := TakeOut(rival, items[..n], p);
      var earlier := RivalAssignment(items[..n], rival[k := rest]);
      shard := earlier + [k];
      forall b | 0 <= b < |rival| ensures multiset(Selected(items, shard, b)) == multiset(rival[b]) {
        SelectedAppend(items[..n], earlier, p, k, b);
        assert multiset(Selected(items[..n], earlier, b)) == multiset(rival[k := rest][b]);
      }
    }
  }

  /**
   Graham's bound: for every plan that spreads the same files over m shards with no shard above o,
   each shard of the greedy plan weighs at most (4/3 - 1/(3m)) * o.
   */
  lemma GrahamBound(source: Source, files: seq<Path>, rival: seq<seq<Path>>, o: nat, k: nat)
    requires k < |rival| && Pooled(rival) == multiset(files)
    requires forall b :: 0 <= b < |rival| ==> WeightSum(source, rival[b]) <= o
    ensures var m := |rival|;
            3 * m * WeightSum(source, Shard(source, files, k, m)) <= (4 * m - 1) * o
  {
    var m := |rival|;
    var items := Items(source, files);
    var ws := Weights(source, items);
    ItemsDescend(source, files);
    var shard := RivalAssignment(items, rival);
    forall b | 0 <= b < m ensures Load(ws, shard, b) <= o {
      SelectedWeight(source, items, shard, b);
      WeightSumPermutation(source, Selected(items, shard, b), rival[b]);
    }
    GrahamBoundSorted(ws, m, shard, o, k);
    ShardWeight(source, files, k, m);
  }
}
