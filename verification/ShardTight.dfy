/** Graham's bound is reached: for every number of shards there are weights whose greedy plan is that uneven. */
module ShardTight {
  import opened ShardAllocator
  import opened ShardLoads

  // ----- the weights 2m - 1, 2m - 1, ..., m + 1, m + 1, m, m, m -----

  function TightWeight(m: nat, i: nat): nat
    requires m >= 1 && i <= 2 * m
  {
    if i == 2 * m then m else 2 * m - 1 - i / 2
  }

  function TightWeights(m: nat): (ws: seq<nat>)
    requires m >= 1
    ensures |ws| == 2 * m + 1
    ensures forall i :: 0 <= i < |ws| ==> ws[i] == TightWeight(m, i)
  {
    seq(2 * m + 1, i requires 0 <= i < 2 * m + 1 => TightWeight(m, i))
  }

  lemma WhereLeast(loads: seq<nat>, c: nat)
    requires c < |loads| && forall k :: 0 <= k < |loads| ==> loads[c] <= loads[k] && (k < c ==> loads[c] < loads[k])
    ensures LeastLoaded(loads) == c
  {
    var best := LeastLoaded(loads);
    assert loads[best] <= loads[c] && loads[c] <= loads[best];
  }

  // ----- the greedy plan pairs a heavy item with a light one on every shard -----

  /** The second item on shard k. */
  function Partner(m: nat, k: nat): (i: nat)
    requires k < m
    ensures m <= i < 2 * m
    ensures TightWeight(m, k) + TightWeight(m, i) == 3 * m - 1
  {
    var i := 2 * (m - 1 - k / 2) + k % 2;
    if i < m then m else i
  }

  /** The shard whose second item is item i. */
  function PartnerOf(m: nat, i: nat): (k: nat)
    requires m <= i < 2 * m
    ensures k < m && Partner(m, k) == i
  {
    var k := if i == m && m % 2 == 1 then m - 1 else 2 * (m - 1 - i / 2) + i % 2;
    assert k / 2 == m - 1 - i / 2;
    k
  }

  /** The load of shard k after the first i items, for at most 2m of them. */
  function PairLoad(m: nat, i: nat, k: nat): nat
    requires k < m
  {
    (if k < i then TightWeight(m, k) else 0) + if Partner(m, k) < i then TightWeight(m, Partner(m, k)) else 0
  }

  ghost predicate Paired(loads: seq<nat>, m: nat, i: nat) {
    |loads| == m && forall k :: 0 <= k < m ==> loads[k] == PairLoad(m, i, k)
  }

  /** Shards that still lack their second item: the one to get it next is lighter, or as light and further left. */
  lemma NextPartner(m: nat, k: nat, c: nat)
    requires k < m && c < m && Partner(m, k) > Partner(m, c)
    ensures TightWeight(m, c) <= TightWeight(m, k)
    ensures k < c ==> TightWeight(m, c) < TightWeight(m, k)
  {
  }

  lemma PartnersDiffer(m: nat, k: nat, c: nat)
    requires k < m && c < m && Partner(m, k) == Partner(m, c)
    ensures k == c
  {
  }

  /** The shard that item i belongs on. */
  function PairShard(m: nat, i: nat): (k: nat)
    requires i < 2 * m
    ensures k < m
  {
    if i < m then i else PartnerOf(m, i)
  }

  lemma PairShardIsLeast(loads: seq<nat>, m: nat, i: nat)
    requires i < 2 * m && Paired(loads, m, i)
    ensures LeastLoaded(loads) == PairShard(m, i)
  {
    var c := PairShard(m, i);
    forall k | 0 <= k < m ensures loads[c] <= loads[k] && (k < c ==> loads[c] < loads[k]) {
      if i >= m && Partner(m, k) > i {
        NextPartner(m, k, c);
      } else if i >= m && Partner(m, k) == i {
        PartnersDiffer(m, k, c);
      }
    }
    WhereLeast(loads, c);
  }

  lemma PairLoadStep(m: nat, i: nat, k: nat)
    requires i < 2 * m && k < m
    ensures PairLoad(m, i + 1, k) == PairLoad(m, i, k) + if k == PairShard(m, i) then TightWeight(m, i) else 0
  {
    if i >= m && Partner(m, k) == i {
      PartnersDiffer(m, k, PairShard(m, i));
    }
  }

  // ----- the pairing is the greedy plan -----

  function PairPlan(m: nat): (shard: seq<nat>)
    requires m >= 1
    ensures |shard| == 2 * m + 1
    ensures forall i :: 0 <= i < |shard| ==> shard[i] == if i == 2 * m then 0 else PairShard(m, i)
  {
    seq(2 * m + 1, i requires 0 <= i < 2 * m + 1 => if i == 2 * m then 0 else PairShard(m, i))
  }

  lemma NextLoad(vals: seq<nat>, shard: seq<nat>, n: nat, k: nat)
    requires |vals| == |shard| && n < |vals|
    ensures Load(vals[..n + 1], shard[..n + 1], k)
         == Load(vals[..n], shard[..n], k) + if shard[n] == k then vals[n] else 0
  {
    assert vals[..n + 1] == vals[..n] + [vals[n]] && shard[..n + 1] == shard[..n] + [shard[n]];
    LoadAppend(vals[..n], shard[..n], vals[n], shard[n], k);
  }

  /** A quantity that grows with the items of a shard, by their value, is the shard's load. */
  lemma {:induction false} LoadIs(vals: seq<nat>, shard: seq<nat>, k: nat, f: nat -> nat, n: nat)
    requires |vals| == |shard| && n <= |vals| && f(0) == 0
    requires forall i: nat :: i < n ==> f(i + 1) == f(i) + if shard[i] == k then vals[i] else 0
    ensures Load(vals[..n], shard[..n], k) == f(n)
  {
    if n == 0 {
    } else {
      LoadIs(vals, shard, k, f, n - 1);
      NextLoad(vals, shard, n - 1, k);
    }
  }

  lemma PairLoads(m: nat, i: nat, k: nat)
    requires k < m && i <= 2 * m
    ensures Load(TightWeights(m)[..i], PairPlan(m)[..i], k) == PairLoad(m, i, k)
  {
    var f := (n: nat) => PairLoad(m, n, k);
    forall n: nat | n < i ensures f(n + 1) == f(n) + if PairPlan(m)[n] == k then TightWeights(m)[n] else 0 {
      PairLoadStep(m, n, k);
    }
    LoadIs(TightWeights(m), PairPlan(m), k, f, i);
  }

  /** The plan puts item i on the least loaded shard. */
  ghost predicate ChoosesLeast(ws: seq<nat>, plan: seq<nat>, m: nat, i: nat)
    requires m >= 1 && |plan| == |ws| && i < |ws|
  {
    plan[i] == LeastLoaded(Loads(ws[..i], plan[..i], m))
  }

  lemma ChoosesLeastPrefix(ws: seq<nat>, plan: seq<nat>, m: nat, n: nat, i: nat)
    requires m >= 1 && |plan| == |ws| && i < n <= |ws| && ChoosesLeast(ws, plan, m, i)
    ensures ChoosesLeast(ws[..n], plan[..n], m, i)
  {
    assert ws[..n][..i] == ws[..i] && plan[..n][..i] == plan[..i];
  }

  /** A plan that always chooses the least loaded shard is the greedy one. */
  lemma {:induction false} GreedyIs(ws: seq<nat>, plan: seq<nat>, m: nat)
    requires m >= 1 && |plan| == |ws| && forall i :: 0 <= i < |ws| ==> ChoosesLeast(ws, plan, m, i)
    ensures Greedy(ws, m) == plan
  {
    if ws == [] {
    } else {
      var n := |ws| - 1;
      forall i | 0 <= i < n ensures ChoosesLeast(ws[..n], plan[..n], m, i) {
        ChoosesLeastPrefix(ws, plan, m, n, i);
      }
      GreedyIs(ws[..n], plan[..n], m);
      assert ChoosesLeast(ws, plan, m, n);
      assert plan == plan[..n] + [plan[n]];
    }
  }

  lemma PairsAreLevel(loads: seq<nat>, m: nat)
    requires m >= 1 && Paired(loads, m, 2 * m)
    ensures LeastLoaded(loads) == 0
  {
    forall k | 0 <= k < m ensures PairLoad(m, 2 * m, k) == 3 * m - 1 {
    }
    WhereLeast(loads, 0);
  }

  lemma PairingIsGreedy(m: nat)
    requires m >= 1
    ensures Greedy(TightWeights(m), m) == PairPlan(m)
  {
    var ws, plan := TightWeights(m), PairPlan(m);
    forall i | 0 <= i < |ws| ensures ChoosesLeast(ws, plan, m, i) {
      var loads := Loads(ws[..i], plan[..i], m);
      forall k | 0 <= k < m ensures loads[k] == PairLoad(m, i, k) {
        PairLoads(m, i, k);
      }
      if i == 2 * m {
        PairsAreLevel(loads, m);
      } else {
        PairShardIsLeast(loads, m, i);
      }
    }
    GreedyIs(ws, plan, m);
  }

  /** The last item comes on top of a shard with two items. */
  lemma GreedyIsUneven(m: nat)
    requires m >= 1
    ensures Load(TightWeights(m), Greedy(TightWeights(m), m), 0) == 4 * m - 1
  {
    var ws, plan, n := TightWeights(m), PairPlan(m), 2 * m;
    PairingIsGreedy(m);
    PairLoads(m, n, 0);
    NextLoad(ws, plan, n, 0);
    assert ws[..n + 1] == ws && plan[..n + 1] == plan;
  }

  // ----- a plan that is perfectly even -----

  function EvenShard(m: nat, i: nat): (k: nat)
    requires m >= 1 && i <= 2 * m
    ensures k < m
  {
    if i >= 2 * m - 2 then m - 1 else if i < m - 1 then i else 2 * m - 3 - i
  }

  function EvenPlan(m: nat): (shard: seq<nat>)
    requires m >= 1
    ensures |shard| == 2 * m + 1
    ensures forall i :: 0 <= i < |shard| ==> shard[i] == EvenShard(m, i)
  {
    seq(2 * m + 1, i requires 0 <= i < 2 * m + 1 => EvenShard(m, i))
  }

  /** The load of shard k after the first i items. */
  function EvenLoad(m: nat, i: nat, k: nat): nat
    requires k < m
  {
    if k == m - 1 then m * (if i <= 2 * m - 2 then 0 else i - (2 * m - 2))
    else (if k < i then TightWeight(m, k) else 0) + if 2 * m - 3 - k < i then TightWeight(m, 2 * m - 3 - k) else 0
  }

  lemma EvenLoadStep(m: nat, i: nat, k: nat)
    requires k < m && i <= 2 * m
    ensures EvenLoad(m, i + 1, k) == EvenLoad(m, i, k) + if EvenShard(m, i) == k then TightWeight(m, i) else 0
  {
    if k == m - 1 && i >= 2 * m - 2 {
      assert m * (i + 1 - (2 * m - 2)) == m * (i - (2 * m - 2)) + m;
    }
  }

  lemma EvenPlanIsEven(m: nat, k: nat)
    requires k < m
    ensures Load(TightWeights(m), EvenPlan(m), k) == 3 * m
  {
    var ws, plan, f := TightWeights(m), EvenPlan(m), (n: nat) => EvenLoad(m, n, k);
    forall n: nat | n < 2 * m + 1 ensures f(n + 1) == f(n) + if plan[n] == k then ws[n] else 0 {
      EvenLoadStep(m, n, k);
    }
    LoadIs(ws, plan, k, f, 2 * m + 1);
    assert ws[..2 * m + 1] == ws && plan[..2 * m + 1] == plan;
  }

  /**
   For every number m of shards the bound is reached: some descending weights fit on m shards with makespan o, and
   the greedy plan of the same weights loads a shard with exactly (4m - 1)/(3m) of o.
   */
  lemma GrahamBoundIsTight(m: nat) returns (ws: seq<nat>, rival: seq<nat>, o: nat)
    requires m >= 1
    ensures Descending(ws) && FitsWithin(ws, rival, m, o) && o > 0
    ensures 3 * m * Load(ws, Greedy(ws, m), 0) == (4 * m - 1) * o
  {
    ws, rival, o := TightWeights(m), EvenPlan(m), 3 * m;
    forall k | 0 <= k < m ensures Load(ws, rival, k) <= o {
      EvenPlanIsEven(m, k);
    }
    GreedyIsUneven(m);
    assert 3 * m * (4 * m - 1) == (4 * m - 1) * (3 * m);
  }
}
